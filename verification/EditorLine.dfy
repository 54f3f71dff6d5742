/** Cutting the command line an editor is named by into the program and its arguments: at
    white space, except where double quotes hold a run of it together. */
module EditorLine {
  import opened Text
  import opened Wrappers

  /** The cut so far: finished fields, the one being written, and whether one has begun. */
  datatype Cutter = Cutter(fields: seq<string>, current: string, quoted: bool, started: bool)

  const START := Cutter([], "", false, false)

  function Step(k: Cutter, c: char): Cutter {
    if c == '"' then k.(quoted := !k.quoted, started := true)
    else if !k.quoted && IsSpace(c) then Cutter(Finish(k), if k.started then "" else k.current, k.quoted, false)
    else k.(current := k.current + [c], started := true)
  }

  function Run(line: string, k: Cutter): Cutter {
    if line == "" then k else Run(line[1..], Step(k, line[0]))
  }

  function Finish(k: Cutter): seq<string> {
    if k.started then k.fields + [k.current] else k.fields
  }

  function Fields(line: string): seq<string> {
    Finish(Run(line, START))
  }

  method SplitCommandLine(line: string) returns (fields: seq<string>)
    ensures fields == Fields(line)
  {
    fields := [];
    var current := "";
    var quoted, started := false, false;
    for i := 0 to |line|
      invariant Run(line[i..], Cutter(fields, current, quoted, started)) == Run(line, START)
    {
      assert line[i..][1..] == line[i + 1..];
      var c := line[i];
      if c == '"' {
        quoted, started := !quoted, true;
      } else if !quoted && IsSpace(c) {
        if started {
          fields := fields + [current];
          current := "";
          started := false;
        }
      } else {
        current := current + [c];
        started := true;
      }
    }
    if started {
      fields := fields + [current];
    }
  }

  // ------------------------------------------------------------- laws of the cut

  /** Where a field has not begun, nothing of it has been written. */
  predicate Proper(k: Cutter) {
    !k.started ==> k.current == "" && !k.quoted
  }

  lemma {:induction false} RunConcat(a: string, b: string, k: Cutter)
    ensures Run(a + b, k) == Run(b, Run(a, k))
  {
    if a == "" {
      assert a + b == b;
    } else {
      assert (a + b)[1..] == a[1..] + b;
      RunConcat(a[1..], b, Step(k, a[0]));
    }
  }

  lemma {:induction false} RunKeepsProper(line: string, k: Cutter)
    requires Proper(k)
    ensures Proper(Run(line, k))
  {
    if line != "" {
      RunKeepsProper(line[1..], Step(k, line[0]));
    }
  }

  /** Fields already finished change nothing of what follows them. */
  lemma {:induction false} RunAfter(line: string, k: Cutter, before: seq<string>)
    ensures Run(line, k.(fields := before + k.fields)) == Run(line, k).(fields := before + Run(line, k).fields)
  {
    if line != "" {
      var more := k.(fields := before + k.fields);
      assert (before + k.fields) + [k.current] == before + (k.fields + [k.current]);
      assert Step(more, line[0]) == Step(k, line[0]).(fields := before + Step(k, line[0]).fields);
      RunAfter(line[1..], Step(k, line[0]), before);
    }
  }

  /** Whether a quote is open once `line` has been read. */
  function QuotedAfter(line: string, quoted: bool): bool {
    if line == "" then quoted
    else QuotedAfter(line[1..], if line[0] == '"' then !quoted else quoted)
  }

  lemma {:induction false} RunQuoted(line: string, k: Cutter)
    ensures Run(line, k).quoted == QuotedAfter(line, k.quoted)
  {
    if line != "" {
      RunQuoted(line[1..], Step(k, line[0]));
    }
  }

  /** White space outside quotes is a boundary and nothing else: what stands before it and
      what stands after it are cut as though each were the whole line. */
  lemma SpaceIsABoundary(a: string, c: char, b: string)
    requires IsSpace(c) && !QuotedAfter(a, false)
    ensures Fields(a + [c] + b) == Fields(a) + Fields(b)
  {
    var k := Run(a, START);
    RunQuoted(a, START);
    RunKeepsProper(a, START);
    RunConcat(a + [c], b, START);
    RunConcat(a, [c], START);
    assert [c][1..] == "";
    assert Run([c], k) == START.(fields := Fields(a) + START.fields);
    RunAfter(b, START, Fields(a));
    var end := Run(b, START);
    assert (Fields(a) + end.fields) + [end.current] == Fields(a) + (end.fields + [end.current]);
  }

  /** No white space outside quotes. */
  predicate Unbroken(line: string, quoted: bool) {
    line == "" || ((quoted || !IsSpace(line[0]))
                   && Unbroken(line[1..], if line[0] == '"' then !quoted else quoted))
  }

  function Unquoted(line: string): string {
    if line == "" then "" else (if line[0] == '"' then "" else [line[0]]) + Unquoted(line[1..])
  }

  lemma {:induction false} RunUnbroken(line: string, k: Cutter)
    requires Unbroken(line, k.quoted) && (k.started || line != "")
    ensures Finish(Run(line, k)) == k.fields + [k.current + Unquoted(line)]
  {
    if line == "" {
      assert k.current + Unquoted(line) == k.current;
    } else {
      var next := Step(k, line[0]);
      var more := Unquoted(line[1..]);
      RunUnbroken(line[1..], next);
      if line[0] == '"' {
        assert Unquoted(line) == "" + more;
        assert k.current + ("" + more) == k.current + more;
      } else {
        Associative(k.current, [line[0]], more);
      }
    }
  }

  /** A stretch no open white space breaks is one field: itself without its quotes. */
  lemma UnbrokenIsOneField(line: string)
    requires line != "" && Unbroken(line, false)
    ensures Fields(line) == [Unquoted(line)]
  {
    RunUnbroken(line, START);
    assert "" + Unquoted(line) == Unquoted(line);
  }

  lemma {:induction false} RunIsNothing(line: string, k: Cutter)
    requires Proper(k)
    ensures Finish(Run(line, k)) == [] <==> Finish(k) == [] && Blank(line)
  {
    if line != "" {
      RunIsNothing(line[1..], Step(k, line[0]));
      assert line == [line[0]] + line[1..];
      BlankSplit(line[0], line[1..]);
    }
  }

  lemma BlankSplit(c: char, rest: string)
    ensures Blank([c] + rest) <==> IsSpace(c) && Blank(rest)
  {
    assert ([c] + rest)[0] == c;
    assert forall i :: 0 <= i < |rest| ==> ([c] + rest)[i + 1] == rest[i];
  }

  /** Only a blank line yields no field, so the first word of any other is there to be run. */
  lemma OnlyBlankYieldsNothing(line: string)
    ensures Fields(line) == [] <==> Blank(line)
  {
    RunIsNothing(line, START);
  }

  // ------------------------------------------------------ everything is kept, in order

  function Flat(fields: seq<string>): string {
    if fields == [] then "" else Flat(fields[..|fields| - 1]) + fields[|fields| - 1]
  }

  /** What a line holds besides quotes and the white space outside them. */
  function Essence(line: string, quoted: bool): string {
    if line == "" then ""
    else if line[0] == '"' then Essence(line[1..], !quoted)
    else if !quoted && IsSpace(line[0]) then Essence(line[1..], quoted)
    else [line[0]] + Essence(line[1..], quoted)
  }

  function Written(k: Cutter): string {
    Flat(k.fields) + k.current
  }

  lemma FlatFinish(k: Cutter)
    requires Proper(k)
    ensures Flat(Finish(k)) == Written(k)
  {
    assert k.started ==> (k.fields + [k.current])[..|k.fields|] == k.fields;
    assert !k.started ==> Flat(k.fields) + "" == Flat(k.fields);
  }

  /** What one character adds to what has been written. */
  function Kept(c: char, quoted: bool): string {
    if c == '"' || (!quoted && IsSpace(c)) then "" else [c]
  }

  lemma StepKeeps(k: Cutter, c: char)
    requires Proper(k)
    ensures Written(Step(k, c)) == Written(k) + Kept(c, k.quoted)
  {
    if c == '"' {
      assert Written(k) + "" == Written(k);
    } else if !k.quoted && IsSpace(c) {
      FlatFinish(k);
      assert Written(k) + "" == Written(k);
      assert Flat(Finish(k)) + "" == Flat(Finish(k));
    } else {
      Associative(Flat(k.fields), k.current, [c]);
    }
  }

  lemma EssenceOfNothing(quoted: bool)
    ensures Essence("", quoted) == ""
  {}

  lemma EssenceStep(line: string, quoted: bool)
    requires line != ""
    ensures Essence(line, quoted) ==
            Kept(line[0], quoted) + Essence(line[1..], if line[0] == '"' then !quoted else quoted)
  {}

  lemma Associative(a: string, b: string, c: string)
    ensures (a + b) + c == a + (b + c)
  {}

  lemma {:induction false} RunKeepsAll(line: string, k: Cutter)
    requires Proper(k)
    ensures Written(Run(line, k)) == Written(k) + Essence(line, k.quoted)
  {
    hide Written, Kept, Essence;
    if line == "" {
      assert Written(k) + "" == Written(k);
      EssenceOfNothing(k.quoted);
    } else {
      var next := Step(k, line[0]);
      var rest := Essence(line[1..], next.quoted);
      RunKeepsAll(line[1..], next);
      StepKeeps(k, line[0]);
      EssenceStep(line, k.quoted);
      Associative(Written(k), Kept(line[0], k.quoted), rest);
    }
  }

  /** Nothing the line says is lost, added or moved: the fields one after another are the line
      without its quotes and the white space outside them. */
  lemma NothingIsLost(line: string)
    ensures Flat(Fields(line)) == Essence(line, false)
  {
    RunKeepsProper(line, START);
    RunKeepsAll(line, START);
    FlatFinish(Run(line, START));
  }

  // ------------------------------------------------------------------- quoting it back

  /** One field in quotes, and the white space after it. */
  datatype Piece = Piece(field: string, gap: string)

  predicate Writable(p: Piece) {
    '"' !in p.field && Blank(p.gap)
  }

  /** Every piece in its quotes, a gap wherever another follows. */
  predicate LaidOut(pieces: seq<Piece>) {
    forall i :: 0 <= i < |pieces| ==> Writable(pieces[i]) && (i < |pieces| - 1 ==> pieces[i].gap != "")
  }

  function LineOf(pieces: seq<Piece>): string {
    if pieces == [] then "" else "\"" + pieces[0].field + "\"" + pieces[0].gap + LineOf(pieces[1..])
  }

  function FieldsOf(pieces: seq<Piece>): seq<string> {
    if pieces == [] then [] else [pieces[0].field] + FieldsOf(pieces[1..])
  }

  lemma {:induction false} InsideQuotes(s: string)
    requires '"' !in s
    ensures Unbroken(s + "\"", true) && Unquoted(s + "\"") == s && QuotedAfter(s + "\"", true) == false
  {
    if s == "" {
      assert s + "\"" == "\"";
    } else {
      assert (s + "\"")[1..] == s[1..] + "\"";
      InsideQuotes(s[1..]);
      assert [s[0]] + s[1..] == s;
    }
  }

  lemma QuotedIsOneField(s: string)
    requires '"' !in s
    ensures Fields("\"" + s + "\"") == [s] && !QuotedAfter("\"" + s + "\"", false)
  {
    var line := "\"" + s + "\"";
    assert line[1..] == s + "\"";
    InsideQuotes(s);
    assert "" + Unquoted(s + "\"") == s;
    UnbrokenIsOneField(line);
  }

  lemma {:induction false} BlankAhead(gap: string, rest: string)
    requires Blank(gap)
    ensures Fields(gap + rest) == Fields(rest)
  {
    if gap == "" {
      assert gap + rest == rest;
    } else {
      BlankAhead(gap[1..], rest);
      assert gap + rest == "" + [gap[0]] + (gap[1..] + rest);
      SpaceIsABoundary("", gap[0], gap[1..] + rest);
    }
  }

  lemma GapIsABoundary(a: string, gap: string, rest: string)
    requires Blank(gap) && gap != "" && !QuotedAfter(a, false)
    ensures Fields(a + gap + rest) == Fields(a) + Fields(rest)
  {
    assert a + gap + rest == a + [gap[0]] + (gap[1..] + rest);
    SpaceIsABoundary(a, gap[0], gap[1..] + rest);
    BlankAhead(gap[1..], rest);
  }

  /** Any list of fields without a double quote, the empty ones included, each put in quotes
      and set apart by white space, is read back as it was. */
  lemma {:induction false} QuotingReadsBack(pieces: seq<Piece>)
    requires LaidOut(pieces)
    ensures Fields(LineOf(pieces)) == FieldsOf(pieces)
  {
    if pieces != [] {
      var p := pieces[0];
      var word := "\"" + p.field + "\"";
      assert Writable(p);
      QuotingReadsBack(pieces[1..]);
      QuotedIsOneField(p.field);
      if p.gap == "" {
        assert pieces[1..] == [];
        assert word + "" + "" == word;
      } else {
        GapIsABoundary(word, p.gap, LineOf(pieces[1..]));
      }
    }
  }

  // --------------------------------------------------------------- the editor to run

  /** `path` is where the first candidate found was found, or failing all of them the first
      candidate's own name. */
  predicate IsFirstFound(path: string, candidates: seq<string>, find: string -> Option<string>) {
    && ((forall c <- candidates :: find(c).None?) ==> path == if candidates == [] then "" else candidates[0])
    && (forall i :: 0 <= i < |candidates| && find(candidates[i]).Some? && NoneFound(candidates[..i], find)
            ==> path == find(candidates[i]).value)
  }

  predicate NoneFound(candidates: seq<string>, find: string -> Option<string>) {
    forall c <- candidates :: find(c).None?
  }

  method FirstEditorFound(candidates: seq<string>, find: string -> Option<string>) returns (path: string)
    ensures IsFirstFound(path, candidates, find)
  {
    for i := 0 to |candidates|
      invariant NoneFound(candidates[..i], find)
    {
      var answer := find(candidates[i]);
      if answer.Some? {
        assert forall k :: i < k < |candidates| ==> candidates[i] in candidates[..k];
        return answer.value;
      }
      assert candidates[..i + 1] == candidates[..i] + [candidates[i]];
    }
    assert candidates[..|candidates|] == candidates;
    if |candidates| == 0 {
      return "";
    }
    return candidates[0];
  }

  /** The command is never empty, so naming its first word is safe; a stated editor is cut, one
      found on the system is one program however many spaces its path has. */
  method EditorCommand(editor: string, candidates: seq<string>, find: string -> Option<string>)
    returns (command: seq<string>)
    ensures |command| >= 1
    ensures TrimSpace(editor) != "" ==> command == Fields(TrimSpace(editor))
    ensures TrimSpace(editor) == "" ==> |command| == 1 && IsFirstFound(command[0], candidates, find)
  {
    var stated := TrimSpace(editor);
    if stated != "" {
      command := SplitCommandLine(stated);
      TrimSpaceEnds(editor);
      OnlyBlankYieldsNothing(stated);
    } else {
      var path := FirstEditorFound(candidates, find);
      command := [path];
    }
  }
}
