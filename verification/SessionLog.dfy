/** The session log: one bounded file that many shells append to and trim, some under its
    lock and some after giving up on it. First the two operations on the file's text, then
    the writers interleaved step by step. */
module SessionLog {
  import opened Wrappers
  import opened Text
  import opened LockQueue

  // ------------------------------------------------------------------ the text

  /** strings.TrimRight(s, "\n"). */
  function TrimNewlines(s: string): string {
    if |s| > 0 && s[|s| - 1] == '\n' then TrimNewlines(s[..|s| - 1]) else s
  }

  function LastN<T>(ls: seq<T>, n: nat): (r: seq<T>)
    ensures |r| == if |ls| <= n then |ls| else n
  {
    if |ls| <= n then ls else ls[|ls| - n..]
  }

  /** What trimming makes of a log's text. A file within its bound is not rewritten. */
  function Trimmed(data: string, maxLines: nat): string {
    var ls := Split(TrimNewlines(data), '\n');
    if |ls| <= maxLines then data else Join(LastN(ls, maxLines), '\n') + "\n"
  }

  /** One log file and its bound. */
  class Logger {
    var text: string
    const maxLines: nat

    constructor (text: string, maxLines: nat)
      ensures this.text == text && this.maxLines == maxLines
    {
      this.text := text;
      this.maxLines := maxLines;
    }

    /** One call: `line` is the formatted line, `tries` what the lock answers, and
        `written` whether the append works. */
    method Log(tries: nat -> Try, patience: nat, line: string, written: bool) returns (ok: bool)
      modifies this
      ensures var lock := Wait(tries, patience, 0);
              && ok == (!lock.Broken? && written)
              && text == (if !ok then old(text)
                          else if lock.TimedOut? then old(text) + line + "\n"
                          else Trimmed(old(text) + line + "\n", maxLines))
    {
      var lock := Queue(tries, patience);
      if lock.Broken? || !written {
        return false;
      }
      text := text + line + "\n";
      if lock.Held? {
        Trim();
      }
      ok := true;
    }

    method Trim()
      modifies this
      ensures text == Trimmed(old(text), maxLines)
    {
      hide TrimNewlines, Split, Join;
      var ls := Split(TrimNewlines(text), '\n');
      if |ls| <= maxLines {
        return;
      }
      var kept := ls[|ls| - maxLines..];
      text := Join(kept, '\n') + "\n";
    }
  }

  predicate ProperLines(ls: seq<string>) {
    Free(ls, '\n') && forall i :: 0 <= i < |ls| ==> ls[i] != ""
  }

  lemma {:induction false} JoinEndsWithLast(ls: seq<string>)
    requires ls != [] && ProperLines(ls)
    ensures Join(ls, '\n') != ""
    ensures Join(ls, '\n')[|Join(ls, '\n')| - 1] != '\n'
  {
    if |ls| == 1 {
      assert ls[0] != "" && '\n' !in ls[0];
    } else {
      JoinEndsWithLast(ls[1..]);
    }
  }

  /** On a file of whole lines, trimming keeps the last of them and nothing else. */
  lemma TrimKeepsTheLastLines(ls: seq<string>, maxLines: nat)
    requires ls != [] && ProperLines(ls) && maxLines > 0
    ensures Trimmed(Unlines(ls), maxLines) == Unlines(LastN(ls, maxLines))
  {
    var joined := Join(ls, '\n');
    UnlinesJoin(ls);
    JoinEndsWithLast(ls);
    assert (joined + "\n")[..|joined|] == joined;
    assert TrimNewlines(joined) == joined;
    assert TrimNewlines(joined + "\n") == joined;
    SplitJoin(ls, '\n');
    UnlinesJoin(LastN(ls, maxLines));
  }

  // --------------------------------------------------------------- the writers

  /** A line of the log, and whether a lock holder wrote it. Lines that were there before
      count as holders'. */
  datatype Line = Line(text: string, byHolder: bool)

  type Writer = nat

  /** Where one writer's call stands: queuing or not calling, holding the lock and about to
      append, appended, file read for trimming, trim finished, or past its wait without the
      lock. */
  datatype Phase = Idle | Holding | Appended | HasRead(snapshot: seq<Line>) | Finished | GaveUp

  datatype State = State(file: seq<Line>, history: seq<Line>, lock: Option<Writer>,
                         phases: map<Writer, Phase>)

  /** One atomic step of one writer. `Stop` is the call returning, an error on the way or
      the process dying: each releases a lock that was held. */
  datatype Action =
    | Acquire(w: Writer)
    | Expire(w: Writer)
    | Append(w: Writer, text: string)
    | Read(w: Writer)
    | Rewrite(w: Writer)
    | Stop(w: Writer)

  function PhaseOf(s: State, w: Writer): Phase {
    if w in s.phases then s.phases[w] else Idle
  }

  predicate Enabled(s: State, a: Action) {
    var phase := PhaseOf(s, a.w);
    match a
    case Acquire(_) => phase.Idle? && s.lock.None?
    case Expire(_) => phase.Idle? && s.lock.Some?
    case Append(_, _) => phase.Holding? || phase.GaveUp?
    case Read(_) => phase.Appended?
    case Rewrite(_) => phase.HasRead?
    case Stop(_) => true
  }

  function Next(s: State, a: Action, maxLines: nat): State
    requires Enabled(s, a)
  {
    var phase := PhaseOf(s, a.w);
    match a
    case Acquire(w) => s.(lock := Some(w), phases := s.phases[w := Holding])
    case Expire(w) => s.(phases := s.phases[w := GaveUp])
    case Append(w, text) =>
      var line := Line(text, phase.Holding?);
      if phase.Holding? then
        s.(file := s.file + [line], history := s.history + [line], phases := s.phases[w := Appended])
      else s.(file := s.file + [line], phases := s.phases[w := Idle])
    case Read(w) => s.(phases := s.phases[w := HasRead(s.file)])
    case Rewrite(w) =>
      var kept := if |phase.snapshot| <= maxLines then s.file else LastN(phase.snapshot, maxLines);
      s.(file := kept, phases := s.phases[w := Finished])
    case Stop(w) =>
      s.(lock := if s.lock == Some(w) then None else s.lock, phases := s.phases[w := Idle])
  }

  /** The state a sequence of steps leads to, if each of them could be taken. */
  function Run(s: State, actions: seq<Action>, maxLines: nat): Option<State>
    decreases |actions|
  {
    if actions == [] then Some(s)
    else if !Enabled(s, actions[0]) then None
    else Run(Next(s, actions[0], maxLines), actions[1..], maxLines)
  }

  predicate AllHolders(ls: seq<Line>) {
    forall i :: 0 <= i < |ls| ==> ls[i].byHolder
  }

  predicate NoHolders(ls: seq<Line>) {
    forall i :: 0 <= i < |ls| ==> !ls[i].byHolder
  }

  function Initial(lines: seq<Line>): State {
    State(lines, lines, None, map[])
  }

  /** The holders' lines of a file, in order. */
  function Holders(ls: seq<Line>): seq<Line> {
    if ls == [] then []
    else if ls[|ls| - 1].byHolder then Holders(ls[..|ls| - 1]) + [ls[|ls| - 1]]
    else Holders(ls[..|ls| - 1])
  }

  predicate IsSuffix<T(==)>(a: seq<T>, b: seq<T>) {
    |a| <= |b| && b[|b| - |a|..] == a
  }

  predicate InSection(phase: Phase) {
    phase.Holding? || phase.Appended? || phase.HasRead? || phase.Finished?
  }

  ghost predicate OneInside(s: State) {
    forall w: Writer :: InSection(PhaseOf(s, w)) <==> s.lock == Some(w)
  }

  /** A snapshot taken for trimming is behind the file by late writers' lines only. */
  ghost predicate SnapshotsFresh(s: State) {
    forall w: Writer :: PhaseOf(s, w).HasRead? ==> Behind(PhaseOf(s, w).snapshot, s.file)
  }

  predicate Behind(snapshot: seq<Line>, file: seq<Line>) {
    snapshot <= file && NoHolders(file[|snapshot|..])
  }

  /** What every step keeps. */
  ghost predicate Inv(s: State) {
    OneInside(s) && SnapshotsFresh(s) && IsSuffix(Holders(s.file), s.history)
  }

  lemma {:induction false} HoldersConcat(a: seq<Line>, b: seq<Line>)
    ensures Holders(a + b) == Holders(a) + Holders(b)
    decreases |b|
  {
    if b == [] {
      assert a + b == a;
    } else {
      assert (a + b)[..|a + b| - 1] == a + b[..|b| - 1];
      HoldersConcat(a, b[..|b| - 1]);
    }
  }

  lemma {:induction false} HoldersOfLate(ls: seq<Line>)
    requires NoHolders(ls)
    ensures Holders(ls) == []
    decreases |ls|
  {
    if ls != [] {
      HoldersOfLate(ls[..|ls| - 1]);
    }
  }

  lemma {:induction false} HoldersOfAll(ls: seq<Line>)
    requires AllHolders(ls)
    ensures Holders(ls) == ls
    decreases |ls|
  {
    if ls != [] {
      HoldersOfAll(ls[..|ls| - 1]);
      assert ls == ls[..|ls| - 1] + [ls[|ls| - 1]];
    }
  }

  lemma SuffixTransitive<T>(a: seq<T>, b: seq<T>, c: seq<T>)
    requires IsSuffix(a, b) && IsSuffix(b, c)
    ensures IsSuffix(a, c)
  {
    assert c[|c| - |a|..] == c[|c| - |b|..][|b| - |a|..];
  }

  lemma SuffixGrows<T>(a: seq<T>, b: seq<T>, x: T)
    requires IsSuffix(a, b)
    ensures IsSuffix(a + [x], b + [x])
  {
    assert (b + [x])[|b| - |a|..] == b[|b| - |a|..] + [x];
  }

  lemma HoldersOfLast(ls: seq<Line>, n: nat)
    ensures IsSuffix(Holders(LastN(ls, n)), Holders(ls))
  {
    var kept := LastN(ls, n);
    var before := ls[..|ls| - |kept|];
    assert ls == before + kept;
    HoldersConcat(before, kept);
  }

  lemma OthersStand(s: State, a: Action, maxLines: nat, w: Writer)
    requires Enabled(s, a) && w != a.w
    ensures PhaseOf(Next(s, a, maxLines), w) == PhaseOf(s, w)
  {
  }

  lemma StepKeepsOneInside(s: State, a: Action, maxLines: nat)
    requires OneInside(s) && Enabled(s, a)
    ensures OneInside(Next(s, a, maxLines))
  {
    var next := Next(s, a, maxLines);
    forall w: Writer
      ensures InSection(PhaseOf(next, w)) <==> next.lock == Some(w)
    {
      assert InSection(PhaseOf(s, w)) <==> s.lock == Some(w);
      assert InSection(PhaseOf(s, a.w)) <==> s.lock == Some(a.w);
      if w != a.w {
        OthersStand(s, a, maxLines, w);
      }
    }
  }

  lemma StepKeepsSnapshots(s: State, a: Action, maxLines: nat)
    requires OneInside(s) && SnapshotsFresh(s) && Enabled(s, a)
    ensures SnapshotsFresh(Next(s, a, maxLines))
  {
    var next := Next(s, a, maxLines);
    forall w: Writer | PhaseOf(next, w).HasRead?
      ensures Behind(PhaseOf(next, w).snapshot, next.file)
    {
      if w != a.w {
        OthersStand(s, a, maxLines, w);
        assert InSection(PhaseOf(s, w)) && s.lock == Some(w);
        assert !InSection(PhaseOf(s, a.w));
      }
    }
  }

  /** A rewrite drops the oldest lines it read and, of those appended since, only lines of
      writers that had given up on the lock. */
  lemma RewriteClobbersOnlyLateLines(s: State, w: Writer, maxLines: nat)
    requires Inv(s) && PhaseOf(s, w).HasRead?
    ensures var snapshot := PhaseOf(s, w).snapshot;
            && s.file == snapshot + s.file[|snapshot|..] && NoHolders(s.file[|snapshot|..])
            && Holders(s.file) == Holders(snapshot)
            && Next(s, Rewrite(w), maxLines).file
               == (if |snapshot| <= maxLines then s.file else LastN(snapshot, maxLines))
  {
    var snapshot := PhaseOf(s, w).snapshot;
    assert Behind(snapshot, s.file);
    HoldersConcat(snapshot, s.file[|snapshot|..]);
    HoldersOfLate(s.file[|snapshot|..]);
  }

  lemma AppendKeepsSuffix(s: State, line: Line)
    requires IsSuffix(Holders(s.file), s.history)
    ensures IsSuffix(Holders(s.file + [line]), if line.byHolder then s.history + [line] else s.history)
  {
    HoldersConcat(s.file, [line]);
    assert [line][..0] == [];
    if line.byHolder {
      SuffixGrows(Holders(s.file), s.history, line);
    }
  }

  lemma StepKeepsSuffix(s: State, a: Action, maxLines: nat)
    requires Inv(s) && Enabled(s, a)
    ensures var next := Next(s, a, maxLines); IsSuffix(Holders(next.file), next.history)
  {
    if a.Append? {
      AppendKeepsSuffix(s, Line(a.text, PhaseOf(s, a.w).Holding?));
    } else if a.Rewrite? {
      var snapshot := PhaseOf(s, a.w).snapshot;
      RewriteClobbersOnlyLateLines(s, a.w, maxLines);
      HoldersOfLast(snapshot, maxLines);
      SuffixTransitive(Holders(LastN(snapshot, maxLines)), Holders(snapshot), s.history);
    }
  }

  lemma StepKeepsInv(s: State, a: Action, maxLines: nat)
    requires Inv(s) && Enabled(s, a)
    ensures Inv(Next(s, a, maxLines))
  {
    StepKeepsOneInside(s, a, maxLines);
    StepKeepsSnapshots(s, a, maxLines);
    StepKeepsSuffix(s, a, maxLines);
  }

  lemma {:induction false} RunKeepsInv(s: State, actions: seq<Action>, maxLines: nat)
    requires Inv(s) && Run(s, actions, maxLines).Some?
    ensures Inv(Run(s, actions, maxLines).value)
    decreases |actions|
  {
    if actions != [] {
      StepKeepsInv(s, actions[0], maxLines);
      RunKeepsInv(Next(s, actions[0], maxLines), actions[1..], maxLines);
    }
  }

  /** However holders and timed-out writers interleave, and whichever of them die, the
      holders' lines in the file are the newest of all the lines holders ever wrote, in
      order and without a gap. */
  lemma HoldersLinesSurvive(lines: seq<Line>, actions: seq<Action>, maxLines: nat)
    requires AllHolders(lines) && Run(Initial(lines), actions, maxLines).Some?
    ensures var s := Run(Initial(lines), actions, maxLines).value;
            IsSuffix(Holders(s.file), s.history)
  {
    HoldersOfAll(lines);
    RunKeepsInv(Initial(lines), actions, maxLines);
  }

  // ------------------------------------------------ when every writer gets the lock

  predicate NoneGivesUp(actions: seq<Action>) {
    forall i :: 0 <= i < |actions| ==> !actions[i].Expire?
  }

  /** With nobody giving up: the file is the whole end of the history, never less than the
      bound's worth, and exactly that much of it once a trim has run. */
  ghost predicate Tidy(s: State, maxLines: nat) {
    && (forall w: Writer :: !PhaseOf(s, w).GaveUp?)
    && IsSuffix(s.file, s.history)
    && IsSuffix(LastN(s.history, maxLines), s.file)
    && (forall w: Writer :: PhaseOf(s, w).HasRead? ==> PhaseOf(s, w).snapshot == s.file)
    && (forall w: Writer :: PhaseOf(s, w).Finished? ==> s.file == LastN(s.history, maxLines))
  }

  lemma LastOfSuffix<T>(a: seq<T>, b: seq<T>, n: nat)
    requires IsSuffix(a, b) && IsSuffix(LastN(b, n), a)
    ensures LastN(a, n) == LastN(b, n)
  {
    if |a| > n {
      assert a[|a| - n..] == b[|b| - |a|..][|a| - n..] == b[|b| - n..];
    } else if |b| > n {
      assert |a| == n;
    }
  }

  lemma LastGrows<T>(a: seq<T>, b: seq<T>, x: T, n: nat)
    requires IsSuffix(a, b) && IsSuffix(LastN(b, n), a)
    ensures IsSuffix(LastN(b + [x], n), a + [x])
  {
    SuffixGrows(a, b, x);
    var ax, bx := a + [x], b + [x];
    var last := LastN(bx, n);
    if n == 0 {
      assert last == [] && ax[|ax|..] == [];
    } else if |bx| <= n {
      assert a == b;
    } else {
      assert |last| == n <= |ax|;
      assert ax == bx[|bx| - |ax|..];
      assert ax[|ax| - n..] == bx[|bx| - n..];
    }
  }

  lemma TidyAppend(s: State, w: Writer, text: string, maxLines: nat)
    requires Inv(s) && Tidy(s, maxLines) && Enabled(s, Append(w, text))
    ensures Tidy(Next(s, Append(w, text), maxLines), maxLines)
  {
    var next := Next(s, Append(w, text), maxLines);
    var line := Line(text, true);
    assert PhaseOf(s, w).Holding?;
    SuffixGrows(s.file, s.history, line);
    LastGrows(s.file, s.history, line, maxLines);
    forall v: Writer | v != w
      ensures PhaseOf(next, v) == PhaseOf(s, v) && !InSection(PhaseOf(s, v))
    {
      assert InSection(PhaseOf(s, w)) && s.lock == Some(w);
    }
  }

  lemma TidyRewrite(s: State, w: Writer, maxLines: nat)
    requires Inv(s) && Tidy(s, maxLines) && Enabled(s, Rewrite(w))
    ensures Tidy(Next(s, Rewrite(w), maxLines), maxLines)
  {
    var next := Next(s, Rewrite(w), maxLines);
    LastOfSuffix(s.file, s.history, maxLines);
    assert next.file == LastN(s.history, maxLines);
    forall v: Writer | v != w
      ensures PhaseOf(next, v) == PhaseOf(s, v) && !InSection(PhaseOf(s, v))
    {
      assert InSection(PhaseOf(s, w)) && s.lock == Some(w);
    }
  }

  lemma TidyElse(s: State, a: Action, maxLines: nat)
    requires Inv(s) && Tidy(s, maxLines) && Enabled(s, a)
    requires !a.Append? && !a.Rewrite? && !a.Expire?
    ensures Tidy(Next(s, a, maxLines), maxLines)
  {
    var next := Next(s, a, maxLines);
    forall v: Writer | v != a.w
      ensures PhaseOf(next, v) == PhaseOf(s, v)
    {
      OthersStand(s, a, maxLines, v);
    }
  }

  lemma {:induction false} RunKeepsTidy(s: State, actions: seq<Action>, maxLines: nat)
    requires Inv(s) && Tidy(s, maxLines) && NoneGivesUp(actions)
    requires Run(s, actions, maxLines).Some?
    ensures Tidy(Run(s, actions, maxLines).value, maxLines)
    decreases |actions|
  {
    if actions != [] {
      var a := actions[0];
      assert !a.Expire?;
      match a {
        case Append(w, text) => TidyAppend(s, w, text, maxLines);
        case Rewrite(w) => TidyRewrite(s, w, maxLines);
        case _ => TidyElse(s, a, maxLines);
      }
      StepKeepsInv(s, a, maxLines);
      RunKeepsTidy(Next(s, a, maxLines), actions[1..], maxLines);
    }
  }

  /** When every writer holds the lock, the file after a call's trim is exactly the last
      `maxLines` of everything that was there before and everything appended since. */
  lemma BoundedHistory(lines: seq<Line>, actions: seq<Action>, maxLines: nat, w: Writer)
    requires AllHolders(lines) && NoneGivesUp(actions)
    requires Run(Initial(lines), actions, maxLines).Some?
    requires PhaseOf(Run(Initial(lines), actions, maxLines).value, w).Finished?
    ensures var s := Run(Initial(lines), actions, maxLines).value;
            s.file == LastN(s.history, maxLines)
  {
    hide Run, Next, Inv, Initial;
    StartsTidy(lines, maxLines);
    RunKeepsTidy(Initial(lines), actions, maxLines);
  }

  lemma StartsTidy(lines: seq<Line>, maxLines: nat)
    requires AllHolders(lines)
    ensures Inv(Initial(lines)) && Tidy(Initial(lines), maxLines)
  {
    HoldersOfAll(lines);
  }

  // ------------------------------------------------------------ what a whole run comes to

  function Texts(ls: seq<Line>): seq<string> {
    seq(|ls|, i requires 0 <= i < |ls| => ls[i].text)
  }

  /** The text of every append, a holder's or not. */
  function Appends(actions: seq<Action>): seq<string> {
    if actions == [] then []
    else (if actions[0].Append? then [actions[0].text] else []) + Appends(actions[1..])
  }

  /** Until something is rewritten, the file is what was there and then every line appended, in
      order, whether its writer had the lock or had given up on it; the holders' lines among them
      are the history. */
  lemma EveryLineIsThere(s: State, actions: seq<Action>, maxLines: nat)
    requires Run(s, actions, maxLines).Some? && forall a <- actions :: !a.Rewrite?
    ensures var end := Run(s, actions, maxLines).value;
            && s.file <= end.file && Texts(end.file[|s.file|..]) == Appends(actions)
            && end.history == s.history + Holders(end.file[|s.file|..])
  {
    hide Texts, Appends, Holders, Run;
    var added := LinesAdded(s, actions, maxLines);
    assert (s.file + added)[|s.file|..] == added;
  }

  lemma {:induction false} LinesAdded(s: State, actions: seq<Action>, maxLines: nat) returns (added: seq<Line>)
    requires Run(s, actions, maxLines).Some? && forall a <- actions :: !a.Rewrite?
    ensures var end := Run(s, actions, maxLines).value;
            end.file == s.file + added && end.history == s.history + Holders(added)
    ensures Texts(added) == Appends(actions)
    decreases |actions|
  {
    hide Next, Enabled, Texts, Holders;
    if actions == [] {
      added := [];
      NoLines();
    } else {
      var a := actions[0];
      var next := Next(s, a, maxLines);
      assert a in actions;
      var first := LineAdded(s, a, maxLines);
      var rest := LinesAdded(next, actions[1..], maxLines);
      added := first + rest;
      HoldersConcat(first, rest);
      TextsConcat(first, rest);
      Regrouped(s.file, first, rest);
      Regrouped(s.history, Holders(first), Holders(rest));
    }
  }

  lemma Regrouped(a: seq<Line>, b: seq<Line>, c: seq<Line>)
    ensures a + b + c == a + (b + c)
  {
  }

  lemma NoLines()
    ensures Texts([]) == [] && Holders([]) == []
  {
  }

  lemma TextsConcat(a: seq<Line>, b: seq<Line>)
    ensures Texts(a + b) == Texts(a) + Texts(b)
  {
  }

  lemma LineAdded(s: State, a: Action, maxLines: nat) returns (added: seq<Line>)
    requires Enabled(s, a) && !a.Rewrite?
    ensures var next := Next(s, a, maxLines);
            next.file == s.file + added && next.history == s.history + Holders(added)
    ensures Texts(added) == if a.Append? then [a.text] else []
  {
    if a.Append? {
      added := [Line(a.text, PhaseOf(s, a.w).Holding?)];
      assert added[..0] == [];
    } else {
      added := [];
    }
  }

  /** A writer's own last step, and the last time it got past the lock. */
  function LastOf(actions: seq<Action>, w: Writer): Option<Action> {
    if actions == [] then None
    else if actions[|actions| - 1].w == w then Some(actions[|actions| - 1])
    else LastOf(actions[..|actions| - 1], w)
  }

  /** Whether a writer came by the lock the last time it got past waiting for it. */
  function CameByLock(actions: seq<Action>, w: Writer): bool {
    if actions == [] then false
    else
      var last := actions[|actions| - 1];
      if last == Acquire(w) then true
      else if last == Expire(w) then false
      else CameByLock(actions[..|actions| - 1], w)
  }

  ghost predicate LeftBy(last: Option<Action>, held: bool, p: Phase) {
    match last
    case None => p.Idle?
    case Some(a) =>
      match a
      case Acquire(_) => p.Holding? && held
      case Expire(_) => p.GaveUp? && !held
      case Append(_, _) => p == if held then Appended else Idle
      case Read(_) => p.HasRead? && held
      case Rewrite(_) => p.Finished?
      case Stop(_) => p.Idle?
  }

  /** Where every writer stands after any run, told from its own steps alone: an append by one
      that gave up ends its call, untrimmed. */
  lemma {:induction false} StandsByLastStep(lines: seq<Line>, actions: seq<Action>, maxLines: nat, w: Writer)
    requires Run(Initial(lines), actions, maxLines).Some?
    ensures LeftBy(LastOf(actions, w), CameByLock(actions, w), PhaseOf(Run(Initial(lines), actions, maxLines).value, w))
    decreases |actions|
  {
    if actions != [] {
      var front, last := actions[..|actions| - 1], actions[|actions| - 1];
      RunFront(Initial(lines), actions, maxLines);
      StandsByLastStep(lines, front, maxLines, w);
      var s := Run(Initial(lines), front, maxLines).value;
      if last.w != w {
        OthersStand(s, last, maxLines, w);
      }
    }
  }

  lemma RunFront(s: State, actions: seq<Action>, maxLines: nat)
    requires actions != [] && Run(s, actions, maxLines).Some?
    ensures var front, last := actions[..|actions| - 1], actions[|actions| - 1];
            && Run(s, front, maxLines).Some? && Enabled(Run(s, front, maxLines).value, last)
            && Run(s, actions, maxLines) == Some(Next(Run(s, front, maxLines).value, last, maxLines))
    decreases |actions|
  {
    var front, last := actions[..|actions| - 1], actions[|actions| - 1];
    if |actions| > 1 {
      var next := Next(s, actions[0], maxLines);
      RunFront(next, actions[1..], maxLines);
      assert actions[1..][..|actions| - 2] == front[1..] && front[0] == actions[0];
      assert actions[1..][|actions| - 2] == last;
    } else {
      assert front == [] && actions[1..] == [];
    }
  }

  /** The lines of the writers that had the lock, in the order they were appended. */
  function HeldLines(actions: seq<Action>): seq<Line> {
    if actions == [] then []
    else
      var front, last := actions[..|actions| - 1], actions[|actions| - 1];
      if last.Append? && CameByLock(front, last.w) then HeldLines(front) + [Line(last.text, true)]
      else HeldLines(front)
  }

  /** The history the other results speak of is the lines there were and then what the holders
      appended, through every trim. */
  lemma {:induction false} HistoryIsWhatHoldersWrote(lines: seq<Line>, actions: seq<Action>, maxLines: nat)
    requires Run(Initial(lines), actions, maxLines).Some?
    ensures Run(Initial(lines), actions, maxLines).value.history == lines + HeldLines(actions)
    decreases |actions|
  {
    if actions != [] {
      var front, last := actions[..|actions| - 1], actions[|actions| - 1];
      RunFront(Initial(lines), actions, maxLines);
      HistoryIsWhatHoldersWrote(lines, front, maxLines);
      StandsByLastStep(lines, front, maxLines, last.w);
      var s := Run(Initial(lines), front, maxLines).value;
      assert last.Append? ==> (PhaseOf(s, last.w).Holding? <==> CameByLock(front, last.w));
    }
  }

  /** The price of giving up: writer 1's line, the newest in the file, is gone after
      writer 0's trim, which keeps an older line in its place. */
  lemma LateLineClobbered(first: string, mine: string, late: string)
    ensures var before := [Acquire(0), Expire(1), Append(0, mine), Read(0), Append(1, late)];
            Run(Initial([Line(first, true)]), before, 1).Some?
            && Run(Initial([Line(first, true)]), before, 1).value.file ==
               [Line(first, true), Line(mine, true), Line(late, false)]
    ensures var actions := [Acquire(0), Expire(1), Append(0, mine), Read(0), Append(1, late), Rewrite(0)];
            Run(Initial([Line(first, true)]), actions, 1)
            == Some(State([Line(mine, true)], [Line(first, true), Line(mine, true)], Some(0),
                          map[0 := Finished, 1 := Idle]))
  {
    var o, m, l := Line(first, true), Line(mine, true), Line(late, false);
    var s0 := Initial([o]);
    var s1 := Next(s0, Acquire(0), 1);
    var s2 := Next(s1, Expire(1), 1);
    var s3 := Next(s2, Append(0, mine), 1);
    var s4 := Next(s3, Read(0), 1);
    assert PhaseOf(s4, 0) == HasRead([o, m]) && PhaseOf(s4, 1) == GaveUp;
    var s5 := Next(s4, Append(1, late), 1);
    assert s5.file == [o, m, l] && PhaseOf(s5, 0) == HasRead([o, m]);
    var s6 := Next(s5, Rewrite(0), 1);
    assert LastN([o, m], 1) == [m];
    var end := State([m], [o, m], Some(0), map[0 := Finished, 1 := Idle]);
    assert s6 == end;
    var before := [Acquire(0), Expire(1), Append(0, mine), Read(0), Append(1, late)];
    OneStep(s4, before[4..], 1);
    OneStep(s3, before[3..], 1);
    OneStep(s2, before[2..], 1);
    OneStep(s1, before[1..], 1);
    OneStep(s0, before, 1);
    assert before[4..][1..] == [];
    ThenStep(s0, before, Rewrite(0), 1);
    assert before + [Rewrite(0)] == [Acquire(0), Expire(1), Append(0, mine), Read(0), Append(1, late), Rewrite(0)];
  }

  lemma {:induction false} ThenStep(s: State, actions: seq<Action>, a: Action, maxLines: nat)
    requires Run(s, actions, maxLines).Some? && Enabled(Run(s, actions, maxLines).value, a)
    ensures Run(s, actions + [a], maxLines) == Some(Next(Run(s, actions, maxLines).value, a, maxLines))
    decreases |actions|
  {
    var all := actions + [a];
    if actions == [] {
      assert all == [a] && all[1..] == [];
    } else {
      assert all[0] == actions[0] && all[1..] == actions[1..] + [a];
      ThenStep(Next(s, actions[0], maxLines), actions[1..], a, maxLines);
    }
  }

  lemma OneStep(s: State, actions: seq<Action>, maxLines: nat)
    requires actions != [] && Enabled(s, actions[0])
    ensures Run(s, actions, maxLines) == Run(Next(s, actions[0], maxLines), actions[1..], maxLines)
  {
  }
}
