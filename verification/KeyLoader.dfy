/** Loading keys into the agent: a stored passphrase tried once, then bounded prompting,
    what a dismissal ends, what is recorded, and a wallet unlocked at most once a batch.
    Everything outside answers as it likes, depending on all that happened before. */
module KeyLoader {
  import opened Wrappers
  import opened Text

  type Key = string

  datatype OnDismiss = Stop | Skip | Retry

  /** How a prompt comes back: something typed, the window closed, or no prompt at all. */
  datatype Answer = Typed(pass: string) | Dismissed | NoTerminal | PromptBroken

  /** How ssh-add comes back: an exit code, or it could not be run. */
  datatype AddResult = Exit(code: int) | CouldNotRun

  /** Everything the loader does to the world, with the answer it got. */
  datatype Event =
    | Unlocked(ok: bool)
    | Relocked
    | LookedUp(key: Key, found: Option<string>)
    | Prompted(key: Key, answer: Answer)
    | Tried(key: Key, pass: string, result: AddResult)
    | Stored(key: Key, pass: string)
    | GaveUp(key: Key)
    | Cleared(key: Key)
    | Saved(key: Key)

  /** The configuration, and the world's answers as functions of the trace so far.
      `session`: the store opens once a batch. `tracksGiveup`, `keepsState`: those stores
      are there. */
  datatype Env = Env(
    maxAttempts: int, onDismiss: OnDismiss,
    autoLoads: Key -> bool, walletStores: Key -> bool,
    session: bool, tracksGiveup: bool, keepsState: bool,
    alreadyLoaded: (seq<Event>, Key) -> bool, givenUp: (seq<Event>, Key) -> bool,
    unlock: seq<Event> -> bool, lookup: (seq<Event>, Key) -> Option<string>,
    prompt: (seq<Event>, Key) -> Answer, add: (seq<Event>, Key, string) -> AddResult)

  const DEFAULT_MAX_ATTEMPTS: nat := 3

  function MaxAttempts(env: Env): nat {
    if env.maxAttempts < 1 then DEFAULT_MAX_ATTEMPTS else env.maxAttempts
  }

  // -------------------------------------------------- what one key's loading looks like

  /** How the loading of one key ends. A key opened by a typed passphrase carries what the
      wallet's unlocking answered on the way to storing it, if it was asked. */
  datatype Ending =
    | Exhausted
    | ByVault(pass: string)
    | ByPrompt(pass: string, unlock: Option<bool>)
    | Broken(pass: string)
    | Unanswered(answer: Answer)

  /** One key's loading: not attempted, or the events that settled nothing and then how it
      ended. */
  datatype Course = Skipped | Attempted(spent: seq<Event>, ending: Ending)

  /** An event that settles nothing for the key. */
  predicate Fruitless(env: Env, k: Key, e: Event) {
    match e
    case Unlocked(_) => env.session
    case LookedUp(key, _) => key == k
    case Prompted(key, Typed(_)) => key == k
    case Prompted(key, Dismissed) => key == k && env.onDismiss.Retry?
    case Tried(key, pass, Exit(code)) => key == k && pass != "" && code != 0
    case _ => false
  }

  /** The passphrase of an attempt is the one just typed or just found in the wallet. */
  predicate FromBefore(events: seq<Event>, i: nat)
    requires i < |events|
  {
    events[i].Tried? ==>
      i > 0 && (events[i - 1] == Prompted(events[i].key, Typed(events[i].pass))
                || events[i - 1] == LookedUp(events[i].key, Some(events[i].pass)))
  }

  predicate Spent(env: Env, k: Key, events: seq<Event>) {
    && (forall i :: 0 <= i < |events| ==> Fruitless(env, k, events[i]))
    && (forall i :: 0 <= i < |events| ==> FromBefore(events, i))
  }

  function Prompts(events: seq<Event>, k: Key): nat {
    if events == [] then 0
    else
      var last := events[|events| - 1];
      Prompts(events[..|events| - 1], k) + (if last.Prompted? && last.key == k then 1 else 0)
  }

  function OnSuccess(env: Env, k: Key): seq<Event> {
    (if env.tracksGiveup then [Cleared(k)] else []) + (if env.keepsState then [Saved(k)] else [])
  }

  function Storing(env: Env, k: Key, pass: string, unlock: Option<bool>): seq<Event> {
    if !env.walletStores(k) then []
    else (if unlock.Some? then [Unlocked(unlock.value)] else []) + [Stored(k, pass)]
  }

  /** The events that decide the key. */
  function Deciding(env: Env, k: Key, ending: Ending): seq<Event> {
    match ending
    case Exhausted => []
    case ByVault(pass) => [Tried(k, pass, Exit(0))]
    case ByPrompt(pass, unlock) =>
      [Prompted(k, Typed(pass)), Tried(k, pass, Exit(0))] + Storing(env, k, pass, unlock)
    case Broken(pass) => [Tried(k, pass, CouldNotRun)]
    case Unanswered(answer) => [Prompted(k, answer)]
  }

  /** What is written down about it afterwards. */
  function Closing(env: Env, k: Key, ending: Ending): seq<Event> {
    match ending
    case Exhausted => if env.tracksGiveup then [GaveUp(k)] else []
    case ByVault(_) => OnSuccess(env, k)
    case ByPrompt(_, _) => OnSuccess(env, k)
    case _ => []
  }

  function Segment(env: Env, k: Key, course: Course): seq<Event> {
    if course.Skipped? then [] else course.spent + Deciding(env, k, course.ending) + Closing(env, k, course.ending)
  }

  predicate EndsWith(events: seq<Event>, e: Event) {
    events != [] && events[|events| - 1] == e
  }

  /** What the code makes of one key, whatever it is answered. */
  predicate Proper(env: Env, k: Key, course: Course) {
    course.Skipped?
    || (&& Spent(env, k, course.spent)
        && match course.ending
           case Exhausted => Prompts(course.spent, k) == MaxAttempts(env)
           case ByVault(pass) =>
             pass != "" && Prompts(course.spent, k) == 0 && EndsWith(course.spent, LookedUp(k, Some(pass)))
           case ByPrompt(pass, unlock) =>
             pass != "" && Prompts(course.spent, k) < MaxAttempts(env) && (unlock.Some? ==> env.session)
           case Broken(pass) =>
             pass != "" && Prompts(course.spent, k) <= MaxAttempts(env)
             && (EndsWith(course.spent, LookedUp(k, Some(pass))) || EndsWith(course.spent, Prompted(k, Typed(pass))))
           case Unanswered(answer) =>
             Prompts(course.spent, k) < MaxAttempts(env) && !answer.Typed?
             && !(answer.Dismissed? && env.onDismiss.Retry?))
  }

  /** The dismissal that ends the asking for every key after this one. */
  predicate EndsAsking(env: Env, course: Course) {
    course.Attempted? && course.ending == Unanswered(Dismissed) && env.onDismiss.Stop?
  }

  /** A batch's events: one segment a key, in order. */
  function Segments(env: Env, keys: seq<Key>, courses: seq<Course>): seq<Event>
    requires |courses| <= |keys|
  {
    if courses == [] then []
    else
      var n := |courses| - 1;
      Segments(env, keys, courses[..n]) + Segment(env, keys[n], courses[n])
  }

  function UnlockCount(events: seq<Event>): nat {
    if events == [] then 0
    else UnlockCount(events[..|events| - 1]) + (if events[|events| - 1] == Unlocked(true) then 1 else 0)
  }

  lemma {:induction false} PromptsConcat(a: seq<Event>, b: seq<Event>, k: Key)
    ensures Prompts(a + b, k) == Prompts(a, k) + Prompts(b, k)
    decreases |b|
  {
    if b == [] {
      assert a + b == a;
    } else {
      assert (a + b)[..|a + b| - 1] == a + b[..|b| - 1];
      PromptsConcat(a, b[..|b| - 1], k);
    }
  }

  lemma PromptsOfOne(e: Event, k: Key)
    ensures Prompts([e], k) == if e.Prompted? && e.key == k then 1 else 0
  {
    assert [e][..0] == [];
  }

  lemma SpentGrows(env: Env, k: Key, events: seq<Event>, e: Event)
    requires Spent(env, k, events) && Fruitless(env, k, e)
    requires e.Tried? ==> EndsWith(events, LookedUp(k, Some(e.pass))) || EndsWith(events, Prompted(k, Typed(e.pass)))
    ensures Spent(env, k, events + [e])
    ensures Prompts(events + [e], k) == Prompts(events, k) + (if e.Prompted? then 1 else 0)
  {
    PromptsConcat(events, [e], k);
    PromptsOfOne(e, k);
    forall i | 0 <= i < |events + [e]|
      ensures FromBefore(events + [e], i)
    {
      assert i < |events| ==> FromBefore(events, i);
    }
  }

  lemma LookupIsFruitless(env: Env, k: Key, answer: Option<bool>, found: Option<string>)
    requires answer.Some? ==> env.session
    ensures var spent := (if answer.Some? then [Unlocked(answer.value)] else []) + [LookedUp(k, found)];
            Spent(env, k, spent) && Prompts(spent, k) == 0
  {
    PromptsOfOne(LookedUp(k, found), k);
    if answer.Some? {
      PromptsOfOne(Unlocked(answer.value), k);
      PromptsConcat([Unlocked(answer.value)], [LookedUp(k, found)], k);
    }
  }

  lemma UnansweredIsProper(env: Env, k: Key, before: seq<Event>, answer: Answer)
    requires Spent(env, k, before) && Prompts(before, k) < MaxAttempts(env)
    requires !answer.Typed? && !(answer.Dismissed? && env.onDismiss.Retry?)
    ensures Proper(env, k, Attempted(before, Unanswered(answer)))
    ensures Deciding(env, k, Unanswered(answer)) == [Prompted(k, answer)]
  {
  }

  lemma UnlockStep(events: seq<Event>, e: Event)
    ensures UnlockCount(events + [e]) == UnlockCount(events) + (if e == Unlocked(true) then 1 else 0)
  {
    assert (events + [e])[..|events|] == events;
  }

  // --------------------------------------------------- what answers, and in what order

  /** An answer in the trace is the one the world gave, asked after what came before it. */
  predicate Answered(env: Env, before: seq<Event>, e: Event) {
    match e
    case Unlocked(ok) => ok == env.unlock(before)
    case LookedUp(k, found) => found == env.lookup(before, k)
    case Prompted(k, answer) => answer == env.prompt(before, k)
    case Tried(k, pass, result) => result == env.add(before, k, pass)
    case _ => true
  }

  predicate FollowsOracles(env: Env, events: seq<Event>) {
    forall i :: 0 <= i < |events| ==> Answered(env, events[..i], events[i])
  }

  lemma FollowsOneMore(env: Env, events: seq<Event>, e: Event)
    requires FollowsOracles(env, events) && Answered(env, events, e)
    ensures FollowsOracles(env, events + [e])
  {
    var more := events + [e];
    forall i | 0 <= i < |more|
      ensures Answered(env, more[..i], more[i])
    {
      assert more[..i] == events[..i];
      assert i < |events| ==> Answered(env, events[..i], events[i]);
      assert i == |events| ==> events[..i] == events;
    }
  }

  /** An event that needs the wallet open. */
  predicate NeedsWallet(e: Event) {
    e.LookedUp? || e.Stored?
  }

  /** An event with the wallet: the session is open by then or its opening was just tried; an
      opening is tried only when it is not open. */
  predicate UnlockedFirst(env: Env, events: seq<Event>, i: nat)
    requires i < |events|
  {
    && (NeedsWallet(events[i]) && env.session ==>
         UnlockCount(events[..i]) == 1 || (i > 0 && events[i - 1].Unlocked?))
    && (events[i].Unlocked? ==> env.session && UnlockCount(events[..i]) == 0)
    && (i > 0 && events[i - 1].Unlocked? ==> NeedsWallet(events[i]))
  }

  predicate WalletReady(env: Env, events: seq<Event>) {
    forall i :: 0 <= i < |events| ==> UnlockedFirst(env, events, i)
  }

  predicate JustUnlocked(events: seq<Event>) {
    events != [] && events[|events| - 1].Unlocked?
  }

  lemma ReadyOneMore(env: Env, events: seq<Event>, e: Event)
    requires WalletReady(env, events)
    requires NeedsWallet(e) && env.session ==> UnlockCount(events) == 1 || JustUnlocked(events)
    requires e.Unlocked? ==> env.session && UnlockCount(events) == 0
    requires JustUnlocked(events) ==> NeedsWallet(e)
    ensures WalletReady(env, events + [e])
  {
    hide UnlockCount;
    var more := events + [e];
    forall i | 0 <= i < |more|
      ensures UnlockedFirst(env, more, i)
    {
      assert more[..i] == events[..i];
      assert i < |events| ==> UnlockedFirst(env, events, i);
      assert i == |events| ==> events[..i] == events;
    }
  }

  predicate Usable(found: Option<string>) {
    found.Some? && !Blank(found.value)
  }

  function LookupAt(events: seq<Event>): nat {
    if events != [] && events[0].Unlocked? then 1 else 0
  }

  /** The wallet is asked first and once, and what it holds is tried, if it is not blank. */
  predicate WalletFirst(k: Key, events: seq<Event>) {
    var j := LookupAt(events);
    && j < |events| && events[j].LookedUp? && events[j].key == k
    && (forall i :: j < i < |events| ==> !events[i].LookedUp?)
    && (Usable(events[j].found) <==> j + 1 < |events| && events[j + 1].Tried?)
    && (Usable(events[j].found) ==> events[j + 1].pass == events[j].found.value)
  }

  /** Nothing typed goes unused but an empty answer. */
  predicate TypedIsTried(events: seq<Event>) {
    forall i :: 0 <= i < |events| ==> TriedNext(events, i)
  }

  predicate TriedNext(events: seq<Event>, i: nat)
    requires i < |events|
  {
    events[i].Prompted? && events[i].answer.Typed? && events[i].answer.pass != "" ==>
      && i + 1 < |events| && events[i + 1].Tried?
      && events[i + 1].key == events[i].key && events[i + 1].pass == events[i].answer.pass
  }

  predicate Orderly(k: Key, events: seq<Event>) {
    WalletFirst(k, events) && TypedIsTried(events)
  }

  /** Events that end with the wallet asked, and what it holds that can be used. */
  predicate LookupOnly(k: Key, events: seq<Event>, pass: Option<string>) {
    && LookupAt(events) + 1 == |events|
    && var e := events[LookupAt(events)];
       e.LookedUp? && e.key == k && pass == (if Usable(e.found) then e.found else None)
  }

  lemma LookupIsOrderly(k: Key, events: seq<Event>, pass: Option<string>)
    requires LookupOnly(k, events, pass)
    ensures pass.None? ==> Orderly(k, events)
    ensures pass.Some? ==> forall r :: Orderly(k, events + [Tried(k, pass.value, r)])
  {
    if pass.Some? {
      forall r
        ensures Orderly(k, events + [Tried(k, pass.value, r)])
      {
        assert LookupAt(events + [Tried(k, pass.value, r)]) == LookupAt(events);
      }
    }
  }

  /** What the wallet holds for a key is asked for once, at the start, and tried next if and only if
      it is more than white space. */
  lemma WalletIsSpent(k: Key, events: seq<Event>) returns (j: nat, found: Option<string>)
    requires Orderly(k, events)
    ensures j < |events| && events[j] == LookedUp(k, found) && (j == 0 || (j == 1 && events[0].Unlocked?))
    ensures forall i :: 0 <= i < |events| && events[i].LookedUp? ==> i == j
    ensures (found.Some? && exists c :: c in found.value && !IsSpace(c)) <==> j + 1 < |events| && events[j + 1].Tried?
    ensures j + 1 < |events| && events[j + 1].Tried? ==> Some(events[j + 1].pass) == found
  {
    j := LookupAt(events);
    found := events[j].found;
    assert Usable(found) <==> found.Some? && exists c :: c in found.value && !IsSpace(c);
  }

  /** What one prompt brings: no second question to the wallet, nothing typed unused. */
  predicate FromPrompt(events: seq<Event>) {
    events != [] && events[0].Prompted? && TypedIsTried(events) && forall e <- events :: !e.LookedUp?
  }

  lemma OrderlyAfter(k: Key, before: seq<Event>, more: seq<Event>)
    requires Orderly(k, before) && FromPrompt(more)
    ensures Orderly(k, before + more)
  {
    var all := before + more;
    var j := LookupAt(before);
    assert LookupAt(all) == j && all[j] == before[j];
    forall i | 0 <= i < |all|
      ensures TriedNext(all, i) && (i > j ==> !all[i].LookedUp?)
    {
      assert i < |before| ==> TriedNext(before, i);
      assert i >= |before| ==> TriedNext(more, i - |before|) && all[i] in more;
    }
  }

  lemma StillOrderly(k: Key, before: seq<Event>, more: seq<Event>)
    requires FromPrompt(more)
    ensures Orderly(k, before) ==> Orderly(k, before + more)
  {
    if Orderly(k, before) {
      OrderlyAfter(k, before, more);
    }
  }

  lemma PromptIsOrderly(k: Key, before: seq<Event>, answer: Answer)
    requires !answer.Typed? || answer.pass == ""
    ensures Orderly(k, before) ==> Orderly(k, before + [Prompted(k, answer)])
  {
    StillOrderly(k, before, [Prompted(k, answer)]);
  }

  lemma TurnIsOrderly(k: Key, before: seq<Event>, pass: string, result: AddResult)
    ensures Orderly(k, before) ==> Orderly(k, before + [Prompted(k, Typed(pass)), Tried(k, pass, result)])
  {
    StillOrderly(k, before, [Prompted(k, Typed(pass)), Tried(k, pass, result)]);
  }

  lemma TypedOpens(env: Env, k: Key, pass: string, unlock: Option<bool>)
    ensures FromPrompt(Deciding(env, k, ByPrompt(pass, unlock)))
  {
  }

  /** Whether a key is passed over, after what came before it. */
  predicate Skips(env: Env, before: seq<Event>, k: Key) {
    !env.autoLoads(k) || env.alreadyLoaded(before, k) || (env.tracksGiveup && env.givenUp(before, k))
  }

  /** In every course of a batch the key is skipped exactly when it is to be, and its events
      are in order. */
  predicate BatchInOrder(env: Env, keys: seq<Key>, courses: seq<Course>)
    requires |courses| <= |keys|
  {
    forall n :: 0 <= n < |courses| ==> CourseInOrder(env, Segments(env, keys, courses[..n]), keys[n], courses[n])
  }

  predicate CourseInOrder(env: Env, before: seq<Event>, k: Key, course: Course) {
    && (course.Skipped? <==> Skips(env, before, k))
    && (course.Attempted? ==> Orderly(k, course.spent + Deciding(env, k, course.ending)))
  }

  lemma InOrderOneMore(env: Env, keys: seq<Key>, courses: seq<Course>, course: Course)
    requires |courses| < |keys| && BatchInOrder(env, keys, courses)
    requires CourseInOrder(env, Segments(env, keys, courses), keys[|courses|], course)
    ensures BatchInOrder(env, keys, courses + [course])
  {
    hide Segments, CourseInOrder;
    var more := courses + [course];
    forall n | 0 <= n < |more|
      ensures CourseInOrder(env, Segments(env, keys, more[..n]), keys[n], more[n])
    {
      assert more[..n] == courses[..n];
      assert n == |courses| ==> courses[..n] == courses;
    }
  }

  // ------------------------------------------------------------------------ the code

  /** One loader run. `unlocked` is the session wrapper's flag. */
  class Loader {
    const env: Env
    var trace: seq<Event>
    var unlocked: bool

    constructor (env: Env)
      ensures this.env == env && trace == [] && !unlocked && Consistent()
    {
      this.env := env;
      trace, unlocked := [], false;
    }

    /** The flag is what the trace says, at most one unlock succeeded, every answer in the trace is
        the world's, and the wallet is opened for what needs it. */
    ghost predicate Sound()
      reads this
    {
      && UnlockCount(trace) == (if unlocked then 1 else 0) && (!env.session ==> !unlocked)
      && FollowsOracles(env, trace) && WalletReady(env, trace)
    }

    /** And no opening of the wallet was tried without using it. */
    ghost predicate Consistent()
      reads this
    {
      Sound() && !JustUnlocked(trace)
    }

    method Record(e: Event)
      requires Sound() && !e.Unlocked? && Answered(env, trace, e)
      requires NeedsWallet(e) && env.session ==> unlocked || JustUnlocked(trace)
      requires JustUnlocked(trace) ==> NeedsWallet(e)
      modifies this`trace
      ensures trace == old(trace) + [e] && Consistent()
    {
      hide UnlockCount, FollowsOracles, WalletReady, Answered;
      UnlockStep(trace, e);
      FollowsOneMore(env, trace, e);
      ReadyOneMore(env, trace, e);
      trace := trace + [e];
    }

    method EnsureUnlocked() returns (answer: Option<bool>)
      requires Consistent()
      modifies this
      ensures Sound() && (answer.Some? <==> env.session && !old(unlocked))
      ensures trace == old(trace) + (if answer.Some? then [Unlocked(answer.value)] else [])
      ensures (env.session ==> unlocked || JustUnlocked(trace)) && (JustUnlocked(trace) <==> answer.Some?)
    {
      hide UnlockCount, FollowsOracles, WalletReady;
      answer := None;
      if env.session && !unlocked {
        var ok := env.unlock(trace);
        UnlockStep(trace, Unlocked(ok));
        FollowsOneMore(env, trace, Unlocked(ok));
        ReadyOneMore(env, trace, Unlocked(ok));
        trace := trace + [Unlocked(ok)];
        unlocked := ok;
        answer := Some(ok);
      }
    }

    /** The non-blank passphrase the wallet holds, if any. */
    method StoredPassphrase(k: Key) returns (pass: Option<string>, ghost spent: seq<Event>)
      requires Consistent()
      modifies this
      ensures Consistent() && trace == old(trace) + spent
      ensures Spent(env, k, spent) && Prompts(spent, k) == 0
      ensures pass.Some? ==> pass.value != "" && EndsWith(spent, LookedUp(k, pass))
      ensures LookupOnly(k, spent, pass)
    {
      hide Spent, Prompts, UnlockCount, FollowsOracles, WalletReady;
      var answer := EnsureUnlocked();
      var found := env.lookup(trace, k);
      Record(LookedUp(k, found));
      spent := (if answer.Some? then [Unlocked(answer.value)] else []) + [LookedUp(k, found)];
      LookupIsFruitless(env, k, answer, found);
      pass := if Usable(found) then found else None;
    }

    method StorePassphrase(k: Key, pass: string) returns (answer: Option<bool>)
      requires Consistent()
      modifies this
      ensures Consistent() && (answer.Some? ==> env.session)
      ensures trace == old(trace) + Storing(env, k, pass, answer)
    {
      answer := None;
      if env.walletStores(k) {
        answer := EnsureUnlocked();
        Record(Stored(k, pass));
      }
    }

    /** Spends the wallet's passphrase, if it holds one. A refused one settles nothing. */
    method TryStoredPassphrase(k: Key) returns (settled: Option<Ending>, ghost spent: seq<Event>)
      requires Consistent()
      modifies this
      ensures Consistent()
      ensures settled.None? ==>
                trace == old(trace) + spent && Spent(env, k, spent) && Prompts(spent, k) == 0
      ensures settled.Some? ==>
                && trace == old(trace) + (spent + Deciding(env, k, settled.value))
                && Proper(env, k, Attempted(spent, settled.value))
                && (settled.value.ByVault? || settled.value.Broken?)
      ensures Orderly(k, if settled.None? then spent else spent + Deciding(env, k, settled.value))
    {
      hide UnlockCount, FollowsOracles, WalletReady;
      var pass;
      pass, spent := StoredPassphrase(k);
      LookupIsOrderly(k, spent, pass);
      if pass.None? {
        return None, spent;
      }
      var result := env.add(trace, k, pass.value);
      Record(Tried(k, pass.value, result));
      assert trace == old(trace) + (spent + [Tried(k, pass.value, result)]);
      if result.CouldNotRun? {
        return Some(Broken(pass.value)), spent;
      }
      if result == Exit(0) {
        return Some(ByVault(pass.value)), spent;
      }
      SpentGrows(env, k, spent, Tried(k, pass.value, result));
      return None, spent + [Tried(k, pass.value, result)];
    }

    /** Spends a passphrase just typed. `before` is what the key's loading had done before
        it was asked for. */
    method SpendTyped(k: Key, pass: string, ghost start: seq<Event>, ghost before: seq<Event>)
      returns (settled: Option<Ending>, ghost spent: seq<Event>)
      requires Consistent() && pass != "" && trace == start + (before + [Prompted(k, Typed(pass))])
      requires Spent(env, k, before) && Prompts(before, k) < MaxAttempts(env)
      requires Spent(env, k, before + [Prompted(k, Typed(pass))])
      requires Prompts(before + [Prompted(k, Typed(pass))], k) == Prompts(before, k) + 1
      modifies this
      ensures Consistent() && Asked(start, before, k, settled, spent)
      ensures StaysOrderly(before, k, settled, spent)
    {
      hide Spent, Prompts, Orderly, FollowsOracles, WalletReady, UnlockCount;
      var asked := before + [Prompted(k, Typed(pass))];
      var result := env.add(trace, k, pass);
      ghost var turn := [Prompted(k, Typed(pass)), Tried(k, pass, result)];
      assert asked + [Tried(k, pass, result)] == before + turn;
      TurnIsOrderly(k, before, pass, result);
      Record(Tried(k, pass, result));
      assert trace == start + (asked + [Tried(k, pass, result)]);
      if result.CouldNotRun? {
        return Some(Broken(pass)), asked;
      }
      if result == Exit(0) {
        var unlock := StorePassphrase(k, pass);
        StoredAfter(start, before, Prompted(k, Typed(pass)), Tried(k, pass, result), Storing(env, k, pass, unlock));
        TypedOpens(env, k, pass, unlock);
        StillOrderly(k, before, Deciding(env, k, ByPrompt(pass, unlock)));
        return Some(ByPrompt(pass, unlock)), before;
      }
      SpentGrows(env, k, asked, Tried(k, pass, result));
      return None, asked + [Tried(k, pass, result)];
    }

    lemma StoredAfter(start: seq<Event>, before: seq<Event>, p: Event, t: Event, rest: seq<Event>)
      ensures start + (before + [p] + [t]) + rest == start + (before + ([p, t] + rest))
    {
      assert before + [p] + [t] + rest == before + ([p, t] + rest);
    }

    /** What one prompt leaves: the key settled, or one more attempt spent on it. */
    ghost predicate Asked(start: seq<Event>, before: seq<Event>, k: Key, settled: Option<Ending>, spent: seq<Event>)
      reads this
    {
      match settled
      case None => trace == start + spent && Spent(env, k, spent) && Prompts(spent, k) == Prompts(before, k) + 1
      case Some(ending) =>
        trace == start + (spent + Deciding(env, k, ending)) && Proper(env, k, Attempted(spent, ending))
    }

    /** The events so far are in order if those before the prompt were. */
    ghost predicate StaysOrderly(before: seq<Event>, k: Key, settled: Option<Ending>, spent: seq<Event>) {
      Orderly(k, before) ==>
        Orderly(k, if settled.None? then spent else spent + Deciding(env, k, settled.value))
    }

    /** One prompt and what comes of it. `start` is the trace before this key. */
    method AskOnce(k: Key, ghost start: seq<Event>, ghost before: seq<Event>)
      returns (settled: Option<Ending>, ghost spent: seq<Event>)
      requires Consistent() && trace == start + before
      requires Spent(env, k, before) && Prompts(before, k) < MaxAttempts(env)
      modifies this
      ensures Consistent() && Asked(start, before, k, settled, spent)
      ensures StaysOrderly(before, k, settled, spent)
    {
      hide Spent, Prompts, Orderly, Proper, FollowsOracles, WalletReady, UnlockCount;
      var answer := env.prompt(trace, k);
      Record(Prompted(k, answer));
      assert trace == start + (before + [Prompted(k, answer)]);
      if !answer.Typed? || answer.pass == "" {
        PromptIsOrderly(k, before, answer);
      }
      if !answer.Typed? && !(answer.Dismissed? && env.onDismiss.Retry?) {
        UnansweredIsProper(env, k, before, answer);
        return Some(Unanswered(answer)), before;
      }
      SpentGrows(env, k, before, Prompted(k, answer));
      if !answer.Typed? || answer.pass == "" {
        return None, before + [Prompted(k, answer)];
      }
      settled, spent := SpendTyped(k, answer.pass, start, before);
    }

    /** Tries what the wallet holds, then asks up to the limit. */
    method LoadViaVaultThenPrompt(k: Key) returns (ghost spent: seq<Event>, ending: Ending)
      requires Consistent()
      modifies this
      ensures Consistent() && Proper(env, k, Attempted(spent, ending))
      ensures trace == old(trace) + (spent + Deciding(env, k, ending))
      ensures Orderly(k, spent + Deciding(env, k, ending))
    {
      var settled;
      settled, spent := TryStoredPassphrase(k);
      if settled.Some? {
        return spent, settled.value;
      }
      for attempt := 1 to MaxAttempts(env) + 1
        invariant Consistent() && trace == old(trace) + spent
        invariant Spent(env, k, spent) && Prompts(spent, k) == attempt - 1 && Orderly(k, spent)
      {
        settled, spent := AskOnce(k, old(trace), spent);
        if settled.Some? {
          return spent, settled.value;
        }
      }
      assert spent + [] == spent;
      ending := Exhausted;
    }

    method WriteDown(k: Key, ending: Ending)
      requires Consistent()
      modifies this
      ensures Consistent() && trace == old(trace) + Closing(env, k, ending)
    {
      hide UnlockCount, FollowsOracles, WalletReady;
      if ending.ByVault? || ending.ByPrompt? {
        if env.tracksGiveup {
          Record(Cleared(k));
        }
        if env.keepsState {
          Record(Saved(k));
        }
      } else if ending.Exhausted? && env.tracksGiveup {
        Record(GaveUp(k));
      }
    }

    method AddWithRetries(k: Key) returns (ghost course: Course, askingEnded: bool)
      requires Consistent()
      modifies this
      ensures Consistent() && Proper(env, k, course) && course.Attempted?
      ensures Orderly(k, course.spent + Deciding(env, k, course.ending))
      ensures trace == old(trace) + Segment(env, k, course)
      ensures askingEnded <==> EndsAsking(env, course)
    {
      hide Proper, Orderly, FollowsOracles, WalletReady, UnlockCount;
      ghost var spent;
      var ending;
      spent, ending := LoadViaVaultThenPrompt(k);
      course := Attempted(spent, ending);
      askingEnded := ending == Unanswered(Dismissed) && env.onDismiss.Stop?;
      WriteDown(k, ending);
      assert trace == old(trace) + Segment(env, k, course);
    }

    method LoadOne(k: Key) returns (ghost course: Course, askingEnded: bool)
      requires Consistent()
      modifies this
      ensures Consistent() && Proper(env, k, course)
      ensures trace == old(trace) + Segment(env, k, course)
      ensures askingEnded <==> EndsAsking(env, course)
      ensures course.Skipped? <==>
                !env.autoLoads(k) || env.alreadyLoaded(old(trace), k) || (env.tracksGiveup && env.givenUp(old(trace), k))
      ensures CourseInOrder(env, old(trace), k, course)
    {
      if !env.autoLoads(k) || env.alreadyLoaded(trace, k) || (env.tracksGiveup && env.givenUp(trace, k)) {
        return Skipped, false;
      }
      course, askingEnded := AddWithRetries(k);
    }

    /** The batch. `keys` is None when they cannot be listed; `ready` that ssh-add, the
        askpass helper and the agent's own list are all there. */
    method LoadKeys(keys: Option<seq<Key>>, ready: bool) returns (ok: bool, ghost courses: seq<Course>)
      requires trace == [] && Consistent()
      modifies this
      ensures ok <==> keys.Some? && (keys.value == [] || ready)
      ensures !ok ==> trace == []
      ensures ok ==> |courses| <= |keys.value|
      ensures ok ==>
                var events := Segments(env, keys.value, courses);
                && ProperBatch(env, keys.value, courses)
                && BatchInOrder(env, keys.value, courses) && FollowsOracles(env, trace) && WalletReady(env, trace)
                && UnlockCount(events) <= 1
                && trace == events + (if UnlockCount(events) == 1 then [Relocked] else [])
    {
      courses := [];
      if keys.None? {
        return false, [];
      }
      var ks := keys.value;
      if ks == [] {
        return true, [];
      }
      if !ready {
        return false, [];
      }
      courses := LoadEach(ks);
      ok := true;
      if unlocked {
        FollowsOneMore(env, trace, Relocked);
        ReadyOneMore(env, trace, Relocked);
        trace := trace + [Relocked];
      }
    }

    method LoadEach(ks: seq<Key>) returns (ghost courses: seq<Course>)
      requires trace == [] && Consistent()
      modifies this
      ensures Consistent() && |courses| <= |ks|
      ensures ProperBatch(env, ks, courses) && trace == Segments(env, ks, courses)
      ensures BatchInOrder(env, ks, courses)
    {
      courses := [];
      for i := 0 to |ks|
        invariant |courses| == i && Consistent()
        invariant GoingOn(env, ks, courses) && trace == Segments(env, ks, courses)
        invariant BatchInOrder(env, ks, courses)
      {
        ghost var course;
        var ended;
        course, ended := LoadOne(ks[i]);
        OneMore(env, ks, courses, course);
        InOrderOneMore(env, ks, courses, course);
        courses := courses + [course];
        if ended {
          return;
        }
      }
    }
  }

  /** Every key's course is proper, and the batch stops at the first dismissal that ends the
      asking, and only there. */
  predicate ProperBatch(env: Env, keys: seq<Key>, courses: seq<Course>)
    requires |courses| <= |keys|
  {
    && AllProper(env, keys, courses)
    && (forall n :: 0 <= n < |courses| - 1 ==> !EndsAsking(env, courses[n]))
    && (|courses| < |keys| ==> courses != [] && EndsAsking(env, courses[|courses| - 1]))
  }

  /** A batch nothing has ended yet. */
  predicate GoingOn(env: Env, keys: seq<Key>, courses: seq<Course>)
    requires |courses| <= |keys|
  {
    forall n :: 0 <= n < |courses| ==> Proper(env, keys[n], courses[n]) && !EndsAsking(env, courses[n])
  }

  lemma ProperStays(env: Env, keys: seq<Key>, courses: seq<Course>, course: Course, n: nat)
    requires |courses| < |keys| && GoingOn(env, keys, courses) && Proper(env, keys[|courses|], course)
    requires n <= |courses|
    ensures Proper(env, keys[n], (courses + [course])[n])
    ensures n < |courses| ==> !EndsAsking(env, (courses + [course])[n])
  {
    if n < |courses| {
      assert (courses + [course])[n] == courses[n];
    }
  }

  lemma OneMore(env: Env, keys: seq<Key>, courses: seq<Course>, course: Course)
    requires |courses| < |keys| && GoingOn(env, keys, courses) && Proper(env, keys[|courses|], course)
    ensures Segments(env, keys, courses + [course])
         == Segments(env, keys, courses) + Segment(env, keys[|courses|], course)
    ensures !EndsAsking(env, course) ==> GoingOn(env, keys, courses + [course])
    ensures EndsAsking(env, course) ==> ProperBatch(env, keys, courses + [course])
  {
    var more := courses + [course];
    assert more[..|courses|] == courses && more[|courses|] == course;
    forall n | 0 <= n < |more|
      ensures Proper(env, keys[n], more[n]) && (n < |courses| ==> !EndsAsking(env, more[n]))
    {
      ProperStays(env, keys, courses, course, n);
    }
  }

  // -------------------------------------------------------- what a trace never shows

  predicate Opens(e: Event) {
    e.Tried? && e.result == Exit(0)
  }

  /** An event that ends the key's loading without opening it. */
  predicate Abandons(env: Env, e: Event) {
    || (e.Tried? && e.result.CouldNotRun?)
    || (e.Prompted? && (e.answer.NoTerminal? || e.answer.PromptBroken?
                        || (e.answer.Dismissed? && !env.onDismiss.Retry?)))
  }

  /** The events of an attempted course, part by part. */
  lemma PartsOfSegment(env: Env, k: Key, course: Course, e: Event)
    requires course.Attempted?
    ensures e in Segment(env, k, course) <==>
              e in course.spent || e in Deciding(env, k, course.ending) || e in Closing(env, k, course.ending)
  {
  }

  lemma SpentIsFruitless(env: Env, k: Key, course: Course, e: Event)
    requires Proper(env, k, course) && course.Attempted? && e in course.spent
    ensures Fruitless(env, k, e)
  {
  }

  /** No passphrase handed to ssh-add is empty, each belongs to this key, and the wallet is
      not locked again while keys are being loaded. */
  lemma OnlyRealPassphrases(env: Env, k: Key, course: Course)
    requires Proper(env, k, course)
    ensures forall e <- Segment(env, k, course) :: IsReal(k, e)
  {
    forall e | e in Segment(env, k, course)
      ensures IsReal(k, e)
    {
      PartsOfSegment(env, k, course, e);
      if e in course.spent {
        SpentIsFruitless(env, k, course, e);
      }
    }
  }

  predicate IsReal(k: Key, e: Event) {
    && (e.Tried? ==> e.pass != "" && e.key == k)
    && !e.Relocked?
    && (e.Prompted? ==> e.key == k)
  }

  lemma DecidingOrFruitless(env: Env, k: Key, course: Course, e: Event)
    requires Proper(env, k, course) && course.Attempted? && e in Segment(env, k, course)
    requires Opens(e) || Abandons(env, e)
    ensures e in Deciding(env, k, course.ending) && !course.ending.Exhausted?
    ensures Opens(e) <==> course.ending.ByVault? || course.ending.ByPrompt?
  {
    PartsOfSegment(env, k, course, e);
    if e in course.spent {
      SpentIsFruitless(env, k, course, e);
    }
  }

  lemma EndingShows(env: Env, k: Key, course: Course)
    requires Proper(env, k, course) && course.Attempted?
    ensures course.ending.ByVault? || course.ending.ByPrompt? ==>
              exists e :: e in Segment(env, k, course) && Opens(e)
    ensures course.ending.Broken? || course.ending.Unanswered? ==>
              exists e :: e in Segment(env, k, course) && Abandons(env, e)
  {
    var deciding := Deciding(env, k, course.ending);
    match course.ending {
      case ByVault(pass) => PartsOfSegment(env, k, course, deciding[0]);
      case ByPrompt(pass, unlock) => PartsOfSegment(env, k, course, deciding[1]);
      case Broken(pass) => PartsOfSegment(env, k, course, deciding[0]);
      case Unanswered(answer) => PartsOfSegment(env, k, course, deciding[0]);
      case Exhausted =>
    }
  }

  lemma NotSpent(env: Env, k: Key, course: Course, e: Event)
    requires Proper(env, k, course) && course.Attempted? && (e.GaveUp? || e.Cleared? || e.Saved?)
    ensures e !in course.spent && e !in Deciding(env, k, course.ending)
  {
    if e in course.spent {
      SpentIsFruitless(env, k, course, e);
    }
  }

  /** A give-up record is cleared exactly when the key opened. */
  lemma ClearedExactly(env: Env, k: Key, course: Course)
    requires Proper(env, k, course)
    ensures Cleared(k) in Segment(env, k, course) <==>
              env.tracksGiveup && exists e :: e in Segment(env, k, course) && Opens(e)
  {
    if course.Attempted? {
      PartsOfSegment(env, k, course, Cleared(k));
      NotSpent(env, k, course, Cleared(k));
      EndingShows(env, k, course);
      forall e | e in Segment(env, k, course) && Opens(e)
        ensures course.ending.ByVault? || course.ending.ByPrompt?
      {
        DecidingOrFruitless(env, k, course, e);
      }
    }
  }

  /** That a key was added, and for how long, is written down exactly when it opened. */
  lemma SavedExactly(env: Env, k: Key, course: Course)
    requires Proper(env, k, course)
    ensures Saved(k) in Segment(env, k, course) <==>
              env.keepsState && exists e :: e in Segment(env, k, course) && Opens(e)
  {
    if course.Attempted? {
      PartsOfSegment(env, k, course, Saved(k));
      NotSpent(env, k, course, Saved(k));
      EndingShows(env, k, course);
      forall e | e in Segment(env, k, course) && Opens(e)
        ensures course.ending.ByVault? || course.ending.ByPrompt?
      {
        DecidingOrFruitless(env, k, course, e);
      }
    }
  }

  lemma PromptsOfDeciding(env: Env, k: Key, ending: Ending)
    ensures Prompts(Deciding(env, k, ending), k) == if ending.ByPrompt? || ending.Unanswered? then 1 else 0
  {
    match ending {
      case ByPrompt(pass, unlock) => PromptsOfTyped(env, k, pass, unlock);
      case Unanswered(answer) => PromptsOfOne(Prompted(k, answer), k);
      case _ => NoPrompts(Deciding(env, k, ending), k);
    }
  }

  lemma PromptsOfTyped(env: Env, k: Key, pass: string, unlock: Option<bool>)
    ensures Prompts(Deciding(env, k, ByPrompt(pass, unlock)), k) == 1
  {
    var rest := [Tried(k, pass, Exit(0))] + Storing(env, k, pass, unlock);
    assert Deciding(env, k, ByPrompt(pass, unlock)) == [Prompted(k, Typed(pass))] + rest;
    PromptsConcat([Prompted(k, Typed(pass))], rest, k);
    PromptsOfOne(Prompted(k, Typed(pass)), k);
    NoPrompts(rest, k);
  }

  lemma PromptsInSegment(env: Env, k: Key, course: Course)
    requires course.Attempted?
    ensures Prompts(Segment(env, k, course), k)
         == Prompts(course.spent, k) + (if course.ending.ByPrompt? || course.ending.Unanswered? then 1 else 0)
  {
    hide Deciding, Closing;
    var deciding, closing := Deciding(env, k, course.ending), Closing(env, k, course.ending);
    PromptsConcat(course.spent + deciding, closing, k);
    PromptsConcat(course.spent, deciding, k);
    OnlyPromptsStore(env, k, course.ending);
    NoPrompts(closing, k);
    PromptsOfDeciding(env, k, course.ending);
  }

  lemma {:induction false} NoPrompts(events: seq<Event>, k: Key)
    requires forall e :: e in events ==> !(e.Prompted? && e.key == k)
    ensures Prompts(events, k) == 0
    decreases |events|
  {
    if events != [] {
      assert events[|events| - 1] in events;
      NoPrompts(events[..|events| - 1], k);
    }
  }

  /** Giving up is recorded exactly when the user was asked as often as allowed, nothing
      opened the key and nothing else ended its loading. */
  lemma GaveUpExactly(env: Env, k: Key, course: Course)
    requires Proper(env, k, course)
    ensures GaveUp(k) in Segment(env, k, course) <==>
              && env.tracksGiveup
              && Prompts(Segment(env, k, course), k) == (if env.maxAttempts < 1 then 3 else env.maxAttempts)
              && forall e :: e in Segment(env, k, course) ==> !Opens(e) && !Abandons(env, e)
  {
    if course.Attempted? {
      PartsOfSegment(env, k, course, GaveUp(k));
      NotSpent(env, k, course, GaveUp(k));
      EndingShows(env, k, course);
      PromptsInSegment(env, k, course);
      forall e | e in Segment(env, k, course) && (Opens(e) || Abandons(env, e))
        ensures !course.ending.Exhausted?
      {
        DecidingOrFruitless(env, k, course, e);
      }
    }
  }

  predicate DistinctKeys(keys: seq<Key>) {
    forall i, j :: 0 <= i < j < |keys| ==> keys[i] != keys[j]
  }

  predicate AllProper(env: Env, keys: seq<Key>, courses: seq<Course>)
    requires |courses| <= |keys|
  {
    forall n :: 0 <= n < |courses| ==> Proper(env, keys[n], courses[n])
  }

  lemma AllButLast(env: Env, keys: seq<Key>, courses: seq<Course>)
    requires |courses| <= |keys| && courses != [] && AllProper(env, keys, courses)
    ensures AllProper(env, keys, courses[..|courses| - 1])
    ensures Proper(env, keys[|courses| - 1], courses[|courses| - 1])
  {
    forall m | 0 <= m < |courses| - 1
      ensures Proper(env, keys[m], courses[..|courses| - 1][m])
    {
      assert courses[..|courses| - 1][m] == courses[m];
    }
  }

  lemma {:induction false} PromptsInBatch(env: Env, keys: seq<Key>, courses: seq<Course>, k: Key)
    requires |courses| <= |keys| && DistinctKeys(keys) && AllProper(env, keys, courses)
    ensures Prompts(Segments(env, keys, courses), k) <= MaxAttempts(env)
    ensures k !in keys[..|courses|] ==> Prompts(Segments(env, keys, courses), k) == 0
    decreases |courses|
  {
    if courses != [] {
      var n := |courses| - 1;
      var before := courses[..n];
      AllButLast(env, keys, courses);
      PromptsInBatch(env, keys, before, k);
      PromptsConcat(Segments(env, keys, before), Segment(env, keys[n], courses[n]), k);
      assert keys[n] in keys[..|courses|] && keys[n] !in keys[..n];
      if k == keys[n] {
        if courses[n].Attempted? {
          PromptsInSegment(env, k, courses[n]);
        }
      } else {
        forall e | e in Segment(env, keys[n], courses[n])
          ensures !(e.Prompted? && e.key == k)
        {
          OnlyRealPassphrases(env, keys[n], courses[n]);
        }
        NoPrompts(Segment(env, keys[n], courses[n]), k);
      }
      assert k in keys[..n] ==> k in keys[..|courses|];
    }
  }

  /** In a whole batch no key is asked about more often than configured. */
  lemma PromptBudget(env: Env, keys: seq<Key>, courses: seq<Course>, k: Key)
    requires |courses| <= |keys| && DistinctKeys(keys) && ProperBatch(env, keys, courses)
    ensures Prompts(Segments(env, keys, courses), k) <= MaxAttempts(env)
  {
    PromptsInBatch(env, keys, courses, k);
  }

  // ------------------------------------------------------------ what is stored, and when

  /** A store at `i` keeps a passphrase that was typed for that key and that just opened it. */
  predicate StoreEarned(env: Env, events: seq<Event>, i: nat)
    requires i < |events|
  {
    events[i].Stored? ==>
      env.walletStores(events[i].key) && exists j :: 0 < j < i && EarnedBy(events, i, j)
  }

  /** The attempt at `j` opened the key with the passphrase stored at `i`, just typed for it. */
  predicate EarnedBy(events: seq<Event>, i: nat, j: int)
    requires i < |events|
  {
    && 0 < j < i
    && events[i].Stored?
    && events[j] == Tried(events[i].key, events[i].pass, Exit(0))
    && events[j - 1] == Prompted(events[i].key, Typed(events[i].pass))
  }

  /** Where an event of a segment comes from. */
  lemma SegmentAt(env: Env, k: Key, course: Course, i: nat)
    requires course.Attempted? && i < |Segment(env, k, course)|
    ensures var n, deciding, seg := |course.spent|, Deciding(env, k, course.ending), Segment(env, k, course);
            && (i < n ==> seg[i] == course.spent[i] && seg[i] in course.spent)
            && (n <= i < n + |deciding| ==> seg[i] == deciding[i - n])
            && (i >= n + |deciding| ==> seg[i] in Closing(env, k, course.ending))
  {
  }

  lemma OnlyPromptsStore(env: Env, k: Key, ending: Ending)
    ensures forall e <- Closing(env, k, ending) :: !e.Stored? && !e.Prompted?
    ensures !ending.ByPrompt? ==> forall e <- Deciding(env, k, ending) :: !e.Stored?
  {
  }

  lemma StoredByPrompt(env: Env, k: Key, ending: Ending, j: nat)
    requires ending.ByPrompt? && j < |Deciding(env, k, ending)| && Deciding(env, k, ending)[j].Stored?
    ensures j > 1 && env.walletStores(k) && Deciding(env, k, ending)[j] == Stored(k, ending.pass)
  {
  }

  lemma StoresInSegment(env: Env, k: Key, course: Course, i: nat)
    requires Proper(env, k, course) && i < |Segment(env, k, course)|
    ensures StoreEarned(env, Segment(env, k, course), i)
  {
    var seg := Segment(env, k, course);
    var n := |course.spent|;
    SegmentAt(env, k, course, i);
    OnlyPromptsStore(env, k, course.ending);
    if i < n {
      SpentIsFruitless(env, k, course, seg[i]);
    } else if seg[i].Stored? {
      var deciding := Deciding(env, k, course.ending);
      StoredByPrompt(env, k, course.ending, i - n);
      SegmentAt(env, k, course, n);
      SegmentAt(env, k, course, n + 1);
      assert EarnedBy(seg, i, n + 1);
    }
  }

  lemma EarnedAfter(env: Env, before: seq<Event>, events: seq<Event>, i: nat)
    requires i < |events| && StoreEarned(env, events, i)
    ensures StoreEarned(env, before + events, |before| + i)
  {
    if events[i].Stored? {
      var j :| 0 < j < i && EarnedBy(events, i, j);
      assert EarnedBy(before + events, |before| + i, |before| + j);
    }
  }

  lemma EarnedBefore(env: Env, events: seq<Event>, later: seq<Event>, i: nat)
    requires i < |events| && StoreEarned(env, events, i)
    ensures StoreEarned(env, events + later, i)
  {
    if events[i].Stored? {
      var j :| 0 < j < i && EarnedBy(events, i, j);
      assert EarnedBy(events + later, i, j);
    }
  }

  /** In a whole batch, a passphrase reaches the wallet only after it was typed for that key
      and ssh-add opened the key with it, and only where the policy allows it. */
  lemma {:induction false} StoresAreEarned(env: Env, keys: seq<Key>, courses: seq<Course>, i: nat)
    requires |courses| <= |keys| && AllProper(env, keys, courses) && i < |Segments(env, keys, courses)|
    ensures StoreEarned(env, Segments(env, keys, courses), i)
    decreases |courses|
  {
    hide Segment, Proper;
    var n := |courses| - 1;
    var before := Segments(env, keys, courses[..n]);
    var last := Segment(env, keys[n], courses[n]);
    AllButLast(env, keys, courses);
    if i < |before| {
      StoresAreEarned(env, keys, courses[..n], i);
      EarnedBefore(env, before, last, i);
    } else {
      StoresInSegment(env, keys[n], courses[n], i - |before|);
      EarnedAfter(env, before, last, i - |before|);
    }
  }

  /** A passphrase typed for the key that opened it, at `j`. */
  predicate TypedOpen(k: Key, pass: string, events: seq<Event>, j: int) {
    && 0 < j < |events|
    && events[j] == Tried(k, pass, Exit(0)) && events[j - 1] == Prompted(k, Typed(pass))
  }

  /** What is stored for a key is exactly the passphrase that was typed for it and opened it, where
      the policy allows storing it. */
  lemma StoredExactly(env: Env, k: Key, course: Course, pass: string)
    requires Proper(env, k, course)
    ensures Stored(k, pass) in Segment(env, k, course) <==>
              env.walletStores(k) && exists j :: TypedOpen(k, pass, Segment(env, k, course), j)
  {
    if course.Attempted? {
      var seg, n := Segment(env, k, course), |course.spent|;
      if Stored(k, pass) in seg {
        var i :| 0 <= i < |seg| && seg[i] == Stored(k, pass);
        StoresInSegment(env, k, course, i);
        var j :| 0 < j < i && EarnedBy(seg, i, j);
        assert TypedOpen(k, pass, seg, j);
      }
      forall j | TypedOpen(k, pass, seg, j) && env.walletStores(k)
        ensures Stored(k, pass) in seg
      {
        OpenedIsTyped(env, k, course, pass, j);
        var unlock := course.ending.unlock;
        assert Stored(k, pass) in Storing(env, k, pass, unlock);
        PartsOfSegment(env, k, course, Stored(k, pass));
      }
    }
  }

  lemma OpenedIsTyped(env: Env, k: Key, course: Course, pass: string, j: int)
    requires Proper(env, k, course) && course.Attempted? && TypedOpen(k, pass, Segment(env, k, course), j)
    ensures course.ending.ByPrompt? && course.ending.pass == pass
  {
    var seg, n := Segment(env, k, course), |course.spent|;
    SegmentAt(env, k, course, j);
    SegmentAt(env, k, course, j - 1);
    if j < n {
      SpentIsFruitless(env, k, course, seg[j]);
    }
  }

  /** Once a passphrase opened the key, nothing more is asked, looked up or tried for it. */
  lemma OpenedIsSettled(env: Env, k: Key, course: Course, i: nat, j: nat)
    requires Proper(env, k, course) && i < j < |Segment(env, k, course)| && Opens(Segment(env, k, course)[i])
    ensures var e := Segment(env, k, course)[j]; !e.Prompted? && !e.Tried? && !e.LookedUp?
  {
    SegmentAt(env, k, course, i);
    SegmentAt(env, k, course, j);
    if i < |course.spent| {
      SpentIsFruitless(env, k, course, Segment(env, k, course)[i]);
    }
  }

  // ------------------------------------------------------------------- where asking ends

  /** The prompt that is dismissed for good. */
  predicate EndsItAll(env: Env, e: Event) {
    e.Prompted? && e.answer.Dismissed? && env.onDismiss.Stop?
  }

  lemma DismissalIsLast(env: Env, k: Key, course: Course, i: nat)
    requires Proper(env, k, course) && i < |Segment(env, k, course)|
    requires EndsItAll(env, Segment(env, k, course)[i])
    ensures EndsAsking(env, course) && i == |Segment(env, k, course)| - 1
  {
    var seg := Segment(env, k, course);
    SegmentAt(env, k, course, i);
    OnlyPromptsStore(env, k, course.ending);
    if i < |course.spent| {
      SpentIsFruitless(env, k, course, seg[i]);
    } else {
      DismissedLast(env, k, course.ending, i - |course.spent|);
    }
  }

  lemma DismissedLast(env: Env, k: Key, ending: Ending, j: nat)
    requires j < |Deciding(env, k, ending)| && EndsItAll(env, Deciding(env, k, ending)[j])
    ensures ending == Unanswered(Dismissed) && j == 0
    ensures |Deciding(env, k, ending)| == 1 && Closing(env, k, ending) == []
  {
  }

  /** The key the dismissal belongs to, and where it stands if that key is the last. */
  lemma {:induction false} DismissalEndsLast(env: Env, keys: seq<Key>, courses: seq<Course>, i: nat) returns (n: nat)
    requires |courses| <= |keys| && AllProper(env, keys, courses) && i < |Segments(env, keys, courses)|
    requires EndsItAll(env, Segments(env, keys, courses)[i])
    ensures n < |courses| && EndsAsking(env, courses[n])
    ensures n == |courses| - 1 ==> i == |Segments(env, keys, courses)| - 1
    decreases |courses|
  {
    hide Segment, Proper;
    n := |courses| - 1;
    var before := Segments(env, keys, courses[..n]);
    var last := Segment(env, keys[n], courses[n]);
    AllButLast(env, keys, courses);
    if i < |before| {
      n := DismissalEndsLast(env, keys, courses[..n], i);
    } else {
      DismissalIsLast(env, keys[n], courses[n], i - |before|);
    }
  }

  /** Every key of the batch has its turn, unless a prompt is dismissed under "stop": then that is
      the last thing that happens. */
  lemma EveryKeyHasItsTurn(env: Env, keys: seq<Key>, courses: seq<Course>)
    requires |courses| <= |keys| && ProperBatch(env, keys, courses) && |courses| < |keys|
    ensures var events := Segments(env, keys, courses);
            && events != [] && env.onDismiss == Stop
            && events[|events| - 1] == Prompted(keys[|courses| - 1], Dismissed)
  {
    var n := |courses| - 1;
    var seg := Segment(env, keys[n], courses[n]);
    assert seg[|seg| - 1] == Prompted(keys[n], Dismissed);
  }

  /** Once a prompt is dismissed under "stop", nothing more is looked up, asked or added in
      the batch: it is the last thing that happens. */
  lemma NothingAfterDismissal(env: Env, keys: seq<Key>, courses: seq<Course>)
    requires |courses| <= |keys| && ProperBatch(env, keys, courses)
    ensures EndsLast(env, Segments(env, keys, courses))
  {
    hide Segments, Proper;
    var events := Segments(env, keys, courses);
    forall i | 0 <= i < |events| && EndsItAll(env, events[i])
      ensures i == |events| - 1
    {
      var n := DismissalEndsLast(env, keys, courses, i);
      assert n == |courses| - 1;
    }
  }

  predicate EndsLast(env: Env, events: seq<Event>) {
    forall i :: 0 <= i < |events| && EndsItAll(env, events[i]) ==> i == |events| - 1
  }
}
