/** Writing key_dir into the text of a configuration file: the line that sets it is replaced
    where there is one, and added at the end where there is none. */
module ConfigWrite {
  import opened Text
  import opened TomlText

  /** Spaces and tabs. */
  function SkipBlanks(line: string): string {
    if line != "" && (line[0] == ' ' || line[0] == '\t') then SkipBlanks(line[1..]) else line
  }

  const NAME := "key_dir"

  /** A line that sets key_dir, whatever its spacing; a commented one sets nothing. */
  predicate Assigns(line: string) {
    var rest := SkipBlanks(line);
    StartsWith(rest, NAME) && StartsWith(SkipBlanks(rest[|NAME|..]), "=")
  }

  /** The line written, `quoted` being the directory as a quoted TOML string. */
  function Assignment(quoted: string): string {
    NAME + " = " + quoted
  }

  function FirstAssigning(lines: seq<string>): nat {
    if lines == [] || Assigns(lines[0]) then 0 else 1 + FirstAssigning(lines[1..])
  }

  function WithAssignment(body: string, quoted: string): string {
    var lines := Split(body, '\n');
    var i := FirstAssigning(lines);
    if i < |lines| then Join(lines[i := Assignment(quoted)], '\n')
    else if body == "" then Assignment(quoted) + "\n"
    else (if body[|body| - 1] == '\n' then body else body + "\n") + "\n" + Assignment(quoted) + "\n"
  }

  /** The file once `dir` is its key_dir. */
  function WithKeyDir(r: Rules, body: string, dir: string): string {
    WithAssignment(body, Quote(r, dir))
  }

  method WriteKeyDir(r: Rules, body: string, dir: string) returns (out: string)
    ensures out == WithKeyDir(r, body, dir)
  {
    var assignment := Assignment(Quote(r, dir));
    var lines := Split(body, '\n');
    FirstAssigningBounds(lines);
    for i := 0 to |lines|
      invariant FirstAssigning(lines) == i + FirstAssigning(lines[i..])
    {
      assert lines[i..][1..] == lines[i + 1..];
      if Assigns(lines[i]) {
        return Join(lines[i := assignment], '\n');
      }
    }
    if body == "" {
      return assignment + "\n";
    }
    var before := body;
    if body[|body| - 1] != '\n' {
      before := before + "\n";
    }
    out := before + "\n" + assignment + "\n";
  }

  lemma {:induction false} FirstAssigningBounds(lines: seq<string>)
    ensures FirstAssigning(lines) <= |lines|
    ensures FirstAssigning(lines) < |lines| ==> Assigns(lines[FirstAssigning(lines)])
    ensures forall j :: 0 <= j < FirstAssigning(lines) ==> !Assigns(lines[j])
  {
    if lines != [] && !Assigns(lines[0]) {
      FirstAssigningBounds(lines[1..]);
      forall j | 0 <= j < FirstAssigning(lines)
        ensures !Assigns(lines[j])
      {
        assert j > 0 ==> lines[j] == lines[1..][j - 1];
      }
    }
  }

  lemma {:induction false} FirstAssigningIs(lines: seq<string>, i: nat)
    requires i < |lines| && Assigns(lines[i]) && forall j :: 0 <= j < i ==> !Assigns(lines[j])
    ensures FirstAssigning(lines) == i
  {
    if i > 0 {
      assert !Assigns(lines[0]);
      FirstAssigningIs(lines[1..], i - 1);
    }
  }

  predicate SpacesAndTabs(s: string) {
    forall c <- s :: c == ' ' || c == '\t'
  }

  lemma {:induction false} BlanksSkipped(line: string) returns (blanks: string)
    ensures line == blanks + SkipBlanks(line) && SpacesAndTabs(blanks)
  {
    if line != "" && (line[0] == ' ' || line[0] == '\t') {
      var more := BlanksSkipped(line[1..]);
      blanks := [line[0]] + more;
      assert line == [line[0]] + line[1..];
    } else {
      blanks := "";
    }
  }

  lemma {:induction false} SkipsBlanks(blanks: string, rest: string)
    requires SpacesAndTabs(blanks)
    ensures SkipBlanks(blanks + rest) == SkipBlanks(rest)
  {
    if blanks == "" {
      assert blanks + rest == rest;
    } else {
      assert blanks[0] in blanks && blanks == [blanks[0]] + blanks[1..];
      assert (blanks + rest)[1..] == blanks[1..] + rest;
      assert forall c <- blanks[1..] :: c in blanks;
      SkipsBlanks(blanks[1..], rest);
    }
  }

  /** A line of these four parts, of which the first and the second hold nothing but blanks. */
  predicate Reads(line: string, lead: string, gap: string, value: string) {
    line == lead + "key_dir" + gap + "=" + value && SpacesAndTabs(lead) && SpacesAndTabs(gap)
  }

  /** The lines that set key_dir: the name and an equals sign, with nothing but spaces and tabs
      before either. */
  lemma AssignsExactly(line: string)
    ensures Assigns(line) <==> exists lead, gap, value :: Reads(line, lead, gap, value)
  {
    hide SpacesAndTabs, SkipBlanks;
    if Assigns(line) {
      var lead := BlanksSkipped(line);
      var rest := SkipBlanks(line);
      var gap := BlanksSkipped(rest[|NAME|..]);
      var tail := SkipBlanks(rest[|NAME|..]);
      Parts(line, lead, rest, gap, tail);
    }
    forall lead, gap, value | Reads(line, lead, gap, value)
      ensures Assigns(line)
    {
      ReadsAssigns(lead, gap, value);
    }
  }

  lemma Parts(line: string, lead: string, rest: string, gap: string, tail: string)
    requires line == lead + rest && StartsWith(rest, NAME) && rest[|NAME|..] == gap + tail && StartsWith(tail, "=")
    requires SpacesAndTabs(lead) && SpacesAndTabs(gap)
    ensures Reads(line, lead, gap, tail[1..])
  {
    hide SpacesAndTabs;
    var value := tail[1..];
    assert tail == "=" + value && rest == NAME + (gap + ("=" + value));
    assert lead + "key_dir" + gap + "=" + value == lead + (NAME + (gap + ("=" + value)));
  }

  lemma ReadsAssigns(lead: string, gap: string, value: string)
    requires SpacesAndTabs(lead) && SpacesAndTabs(gap)
    ensures Assigns(lead + "key_dir" + gap + "=" + value)
  {
    var rest := "key_dir" + (gap + ("=" + value));
    assert lead + "key_dir" + gap + "=" + value == lead + rest;
    SkipsBlanks(lead, rest);
    assert rest[0] == 'k' && SkipBlanks(rest) == rest && rest[|NAME|..] == gap + ("=" + value);
    SkipsBlanks(gap, "=" + value);
    assert SkipBlanks("=" + value) == "=" + value;
  }

  lemma AssignmentAssigns(quoted: string)
    ensures Assigns(Assignment(quoted))
  {
    var line := Assignment(quoted);
    assert line[0] == 'k';
    assert SkipBlanks(line) == line && line[..|NAME|] == NAME;
    var rest := line[|NAME|..];
    assert rest == " = " + quoted;
    assert rest[1..] == "= " + quoted;
    assert SkipBlanks(rest) == SkipBlanks(rest[1..]) == rest[1..];
    assert rest[1..][..1] == "=";
  }

  lemma AssignmentIsOneLine(quoted: string)
    requires '\n' !in quoted
    ensures '\n' !in Assignment(quoted)
  {
  }

  lemma AppendedLines(body: string, line: string)
    requires '\n' !in line
    ensures Split(body + "\n" + line + "\n", '\n') == Split(body, '\n') + [line, ""]
    ensures Split(body + "\n" + "\n" + line + "\n", '\n') == Split(body, '\n') + ["", line, ""]
  {
    SplitFree(line, '\n');
    SplitConcat(line, "", '\n');
    assert line + "\n" + "" == line + "\n";
    assert body + "\n" + (line + "\n") == body + "\n" + line + "\n";
    SplitConcat(body, line + "\n", '\n');
    var rest := "" + "\n" + (line + "\n");
    SplitConcat("", line + "\n", '\n');
    assert Split("", '\n') == [""];
    assert body + "\n" + rest == body + "\n" + "\n" + line + "\n";
    SplitConcat(body, rest, '\n');
  }

  /** The lines of a file with key_dir written into it, and where the setting stands. */
  lemma LinesAfterWriting(r: Rules, body: string, dir: string)
    requires PrintsNoControl(r)
    ensures var lines := Split(body, '\n');
            var i := FirstAssigning(lines);
            var line := Assignment(Quote(r, dir));
            var after := Split(WithKeyDir(r, body, dir), '\n');
            if i < |lines| then after == lines[i := line]
            else if body == "" then after == [line, ""]
            else if body[|body| - 1] == '\n' then after == lines + [line, ""]
            else after == lines + ["", line, ""]
  {
    hide Quote, Assignment;
    var lines := Split(body, '\n');
    var i := FirstAssigning(lines);
    var line := Assignment(Quote(r, dir));
    QuotedIsOneLine(r, dir);
    AssignmentIsOneLine(Quote(r, dir));
    if i < |lines| {
      SplitIsFree(body, '\n');
      SplitJoin(lines[i := line], '\n');
    } else {
      SplitFree(line, '\n');
      SplitConcat(line, "", '\n');
      assert line + "\n" + "" == line + "\n";
      AppendedLines(body, line);
    }
  }

  /** Where the setting stands once written: the first line that sets it, with every other
      line the file had kept in its place. */
  lemma WrittenOnce(r: Rules, body: string, dir: string)
    requires PrintsNoControl(r)
    ensures var lines := Split(body, '\n');
            var line := Assignment(Quote(r, dir));
            var after := Split(WithKeyDir(r, body, dir), '\n');
            var i := FirstAssigning(after);
            && i < |after| && after[i] == line
            && (FirstAssigning(lines) < |lines| ==> i == FirstAssigning(lines) && after == lines[i := line])
            && (FirstAssigning(lines) == |lines| ==> i == |after| - 2 && (body != "" ==> lines <= after))
  {
    hide Quote, Assignment, Assigns, WithKeyDir;
    var lines := Split(body, '\n');
    var line := Assignment(Quote(r, dir));
    var after := Split(WithKeyDir(r, body, dir), '\n');
    LinesAfterWriting(r, body, dir);
    FirstAssigningBounds(lines);
    AssignmentAssigns(Quote(r, dir));
    BlankAssignsNothing();
    var i := if FirstAssigning(lines) < |lines| then FirstAssigning(lines) else |after| - 2;
    assert after[i] == line;
    FirstAssigningIs(after, i);
  }

  lemma BlankAssignsNothing()
    ensures !Assigns("")
  {}

  /** The last value written is the one that stands: writing twice is writing the second. */
  lemma LastWriteWins(r: Rules, body: string, first: string, second: string)
    requires PrintsNoControl(r)
    ensures WithKeyDir(r, WithKeyDir(r, body, first), second) == WithKeyDir(r, body, second)
  {
    hide Quote, Assignment, Assigns, WithAssignment;
    var once := WithKeyDir(r, body, first);
    var other := WithKeyDir(r, body, second);
    var twice := WithKeyDir(r, once, second);
    FirstAssigningBounds(Split(body, '\n'));
    WrittenOnce(r, body, first);
    LinesAfterWriting(r, body, first);
    LinesAfterWriting(r, body, second);
    LinesAfterWriting(r, once, second);
    assert Split(twice, '\n') == Split(other, '\n');
    JoinSplit(twice, '\n');
    JoinSplit(other, '\n');
  }
}
