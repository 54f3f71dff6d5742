/** Whether a key directory written into the main configuration file is the one the next login
    finds: the text that is edited, the decoding of it, and the files read after it. A file is
    decoded line by line, every setting standing on a line of its own. */
module KeyDirEffect {
  import opened Wrappers
  import opened Text
  import opened TomlText
  import opened Config
  import opened ConfigWrite

  /** What one line says. */
  datatype Meaning = Silent | Header(table: string) | Sets(name: string, value: string) | Broken

  /** The decoder: how strings are written and read, what each line says, and what a file's
      other settings come to. */
  datatype Toml = Toml(rules: Rules, line: string -> Meaning, others: string -> File)

  const KEY_DIR := "key_dir"

  /** A blank line says nothing, and the line written for a directory what its quoted string
      reads as. */
  ghost predicate ReadsLines(t: Toml) {
    && PrintsNoControl(t.rules)
    && t.line("").Silent?
    && forall dir :: t.line(Assignment(Quote(t.rules, dir))) == SaysKeyDir(ReadBasic(t.rules, Quote(t.rules, dir)))
  }

  /** The least a decoder can be: it knows the line that is written and no other. */
  function Least(r: Rules): Toml {
    Toml(r, line => if line == "" then Silent
                    else if StartsWith(line, NAME + " = ") then SaysKeyDir(ReadBasic(r, line[|NAME| + 3..]))
                    else Broken,
         body => EMPTY)
  }

  lemma LeastReadsLines(r: Rules)
    requires PrintsNoControl(r)
    ensures ReadsLines(Least(r))
  {
    hide ReadBasic, Quote;
    forall dir
      ensures Least(r).line(Assignment(Quote(r, dir))) == SaysKeyDir(ReadBasic(r, Quote(r, dir)))
    {
      var line, quoted := Assignment(Quote(r, dir)), Quote(r, dir);
      assert line[..|NAME| + 3] == NAME + " = " && line[|NAME| + 3..] == quoted;
    }
  }

  function SaysKeyDir(read: Option<string>): Meaning {
    if read.Some? then Sets(KEY_DIR, read.value) else Broken
  }

  /** Everything the lines say, in order. */
  function Meanings(t: Toml, lines: seq<string>): seq<Meaning> {
    if lines == [] then []
    else (if t.line(lines[0]).Silent? then [] else [t.line(lines[0])]) + Meanings(t, lines[1..])
  }

  // -------------------------------------------------------------------------- decoding

  /** What must not be there twice: a table, and a name in one table or in none. */
  datatype Slot = Table(name: string) | Name(table: Option<string>, name: string)

  function Slots(ms: seq<Meaning>, table: Option<string>): seq<Slot> {
    if ms == [] then []
    else
      match ms[0]
      case Header(name) => [Table(name)] + Slots(ms[1..], Some(name))
      case Sets(name, _) => [Name(table, name)] + Slots(ms[1..], table)
      case _ => Slots(ms[1..], table)
  }

  predicate Distinct(slots: seq<Slot>) {
    slots == [] || (slots[0] !in slots[1..] && Distinct(slots[1..]))
  }

  predicate NoneBroken(ms: seq<Meaning>) {
    forall m <- ms :: !m.Broken?
  }

  predicate NoHeader(ms: seq<Meaning>) {
    forall m <- ms :: !m.Header?
  }

  predicate Decodes(ms: seq<Meaning>) {
    NoneBroken(ms) && Distinct(Slots(ms, None))
  }

  /** key_dir above every table, which is where it is a setting. */
  function TopKeyDir(ms: seq<Meaning>): Option<string> {
    if ms == [] || ms[0].Header? then None
    else if ms[0].Sets? && ms[0].name == KEY_DIR then Some(ms[0].value)
    else TopKeyDir(ms[1..])
  }

  /** One file read. What does not decode states nothing. */
  function Loaded(t: Toml, path: Path, body: string): Source {
    var ms := Meanings(t, Split(body, '\n'));
    if Decodes(ms) then Source(path, t.others(body).(keyDir := TopKeyDir(ms)), true)
    else Source(path, EMPTY, false)
  }

  /** The configuration with a main file or without one, and the files read after it. */
  function Sources(t: Toml, main: Path, body: Option<string>, rest: seq<Source>): seq<Source> {
    (if body.Some? then [Loaded(t, main, body.value)] else []) + rest
  }

  /** The text `dir` is written into. */
  function Edited(body: Option<string>, template: string): string {
    if body.Some? then body.value else template
  }

  /** The key directory the next login uses once `dir` has been written. */
  function KeyDirAfter(sys: System, t: Toml, main: Path, body: string, rest: seq<Source>, env: Env, dir: string): string {
    Resolve(sys, Merged([Loaded(t, main, WithKeyDir(t.rules, body, dir))] + rest), env).keyDir
  }

  // -------------------------------------------------------------- the lines round the edit

  function Before(t: Toml, body: string): seq<Meaning> {
    var lines := Split(body, '\n');
    var i := FirstAssigning(lines);
    if i < |lines| then Meanings(t, lines[..i]) else Meanings(t, lines)
  }

  function Behind(t: Toml, body: string): seq<Meaning> {
    var lines := Split(body, '\n');
    var i := FirstAssigning(lines);
    if i < |lines| then Meanings(t, lines[i + 1..]) else []
  }

  /** A file the setting can be written into: leaving out the line that is replaced, it decodes,
      no other line sets key_dir, and no table begins above the place. */
  predicate Accepts(t: Toml, body: string) {
    var others := Before(t, body) + Behind(t, body);
    NoHeader(Before(t, body)) && Decodes(others) && Name(None, KEY_DIR) !in Slots(others, None)
  }

  lemma {:induction false} MeaningsConcat(t: Toml, a: seq<string>, b: seq<string>)
    ensures Meanings(t, a + b) == Meanings(t, a) + Meanings(t, b)
  {
    if a == [] {
      assert a + b == b;
    } else {
      assert (a + b)[1..] == a[1..] + b;
      MeaningsConcat(t, a[1..], b);
    }
  }

  lemma MeaningsOfOne(t: Toml, line: string)
    ensures Meanings(t, [line]) == if t.line(line).Silent? then [] else [t.line(line)]
  {
    assert [line][1..] == [];
  }

  /** `line` between two stretches, and blank lines that say nothing. */
  lemma MeaningsAround(t: Toml, before: seq<string>, line: string, behind: seq<string>)
    requires t.line("").Silent? && !t.line(line).Silent?
    ensures Meanings(t, before + [line] + behind) == Meanings(t, before) + [t.line(line)] + Meanings(t, behind)
    ensures Meanings(t, before + ["", line, ""]) == Meanings(t, before) + [t.line(line)]
    ensures Meanings(t, before + [line, ""]) == Meanings(t, before) + [t.line(line)]
    ensures Meanings(t, [""]) == []
  {
    hide Meanings;
    MeaningsOfOne(t, line);
    MeaningsOfOne(t, "");
    MeaningsConcat(t, before + [line], behind);
    MeaningsConcat(t, before, [line]);
    MeaningsConcat(t, before + [line], [""]);
    assert before + [line, ""] == before + [line] + [""];
    MeaningsConcat(t, before + [""], [line, ""]);
    MeaningsConcat(t, before, [""]);
    MeaningsConcat(t, [line], [""]);
    assert before + ["", line, ""] == before + [""] + [line, ""];
    assert [line, ""] == [line] + [""];
  }

  /** What the file says after the edit: the same as before, with the new setting in its place. */
  lemma MeaningsAfterWriting(t: Toml, body: string, dir: string)
    requires ReadsLines(t)
    ensures Meanings(t, Split(WithKeyDir(t.rules, body, dir), '\n'))
         == Before(t, body) + [SaysKeyDir(ReadBasic(t.rules, Quote(t.rules, dir)))] + Behind(t, body)
  {
    hide Quote, Assignment, WithKeyDir, Meanings, ReadBasic, Assigns;
    var lines := Split(body, '\n');
    var i := FirstAssigning(lines);
    var line := Assignment(Quote(t.rules, dir));
    LinesAfterWriting(t.rules, body, dir);
    FirstAssigningBounds(lines);
    if i < |lines| {
      assert lines[i := line] == lines[..i] + [line] + lines[i + 1..];
      MeaningsAround(t, lines[..i], line, lines[i + 1..]);
    } else if body == "" {
      assert lines == [""];
      assert [] + [line, ""] == [line, ""];
      MeaningsAround(t, [], line, []);
      assert Meanings(t, []) == [] by { NothingSaysNothing(t); }
    } else {
      MeaningsAround(t, lines, line, []);
    }
  }

  lemma NothingSaysNothing(t: Toml)
    ensures Meanings(t, []) == []
  {}

  // ------------------------------------------------------------------- the laws of decoding

  function TableAfter(ms: seq<Meaning>, table: Option<string>): Option<string> {
    if ms == [] then table else TableAfter(ms[1..], if ms[0].Header? then Some(ms[0].table) else table)
  }

  lemma {:induction false} SlotsConcat(a: seq<Meaning>, b: seq<Meaning>, table: Option<string>)
    ensures Slots(a + b, table) == Slots(a, table) + Slots(b, TableAfter(a, table))
  {
    if a == [] {
      assert a + b == b;
    } else {
      assert (a + b)[1..] == a[1..] + b;
      SlotsConcat(a[1..], b, if a[0].Header? then Some(a[0].table) else table);
    }
  }

  lemma {:induction false} TableStays(ms: seq<Meaning>, table: Option<string>)
    ensures NoHeader(ms) ==> TableAfter(ms, table) == table
    ensures !NoHeader(ms) ==> TableAfter(ms, table).Some?
    ensures table.Some? ==> TableAfter(ms, table).Some?
  {
    if ms != [] {
      var next := if ms[0].Header? then Some(ms[0].table) else table;
      TableStays(ms[1..], next);
      assert ms == [ms[0]] + ms[1..];
    }
  }

  lemma SlotsAround(a: seq<Meaning>, m: Meaning, b: seq<Meaning>)
    requires m.Sets?
    ensures Slots(a + [m] + b, None)
         == Slots(a, None) + [Name(TableAfter(a, None), m.name)] + Slots(b, TableAfter(a, None))
    ensures Slots(a + b, None) == Slots(a, None) + Slots(b, TableAfter(a, None))
  {
    var table := TableAfter(a, None);
    SlotsConcat(a, b, None);
    SlotsConcat(a + [m], b, None);
    SlotsConcat(a, [m], None);
    assert [m][1..] == [];
    assert Slots([m], table) == [Name(table, m.name)];
    TableOfOne(a, m);
  }

  lemma {:induction false} TableOfOne(a: seq<Meaning>, m: Meaning, table: Option<string> := None)
    requires m.Sets?
    ensures TableAfter(a + [m], table) == TableAfter(a, table)
  {
    if a == [] {
      assert a + [m] == [m] && [m][1..] == [];
    } else {
      assert (a + [m])[1..] == a[1..] + [m];
      TableOfOne(a[1..], m, if a[0].Header? then Some(a[0].table) else table);
    }
  }

  lemma {:induction false} DistinctAround(a: seq<Slot>, x: Slot, b: seq<Slot>)
    ensures Distinct(a + [x] + b) <==> Distinct(a + b) && x !in a + b
  {
    if a == [] {
      assert a + [x] + b == [x] + b && a + b == b;
    } else {
      assert (a + [x] + b)[1..] == a[1..] + [x] + b && (a + b)[1..] == a[1..] + b;
      DistinctAround(a[1..], x, b);
    }
  }

  lemma {:induction false} TopOfConcat(a: seq<Meaning>, b: seq<Meaning>)
    ensures TopKeyDir(a + b) == if TopKeyDir(a).Some? || !NoHeader(a) then TopKeyDir(a) else TopKeyDir(b)
  {
    if a == [] {
      assert a + b == b;
    } else {
      assert (a + b)[1..] == a[1..] + b;
      TopOfConcat(a[1..], b);
      assert a == [a[0]] + a[1..];
    }
  }

  lemma {:induction false} TopIsASlot(ms: seq<Meaning>)
    ensures TopKeyDir(ms).Some? ==> Name(None, KEY_DIR) in Slots(ms, None)
  {
    if ms != [] && !ms[0].Header? {
      TopIsASlot(ms[1..]);
    }
  }

  // -------------------------------------------------------------------- what the edit does

  /** What the main file states of key_dir after an edit it does not take. */
  function Stale(t: Toml, body: string): Option<string> {
    if Decodes(Before(t, body) + [Sets(KEY_DIR, "")] + Behind(t, body)) then TopKeyDir(Before(t, body)) else None
  }

  lemma DecodesWhateverValue(a: seq<Meaning>, v: string, b: seq<Meaning>)
    ensures Decodes(a + [Sets(KEY_DIR, v)] + b) <==> Decodes(a + [Sets(KEY_DIR, "")] + b)
  {
    SlotsAround(a, Sets(KEY_DIR, v), b);
    SlotsAround(a, Sets(KEY_DIR, ""), b);
  }

  /** Above every table, the new line decodes among the others exactly when they decode without
      it and none of them sets key_dir. */
  lemma DecodesAbove(a: seq<Meaning>, v: string, b: seq<Meaning>)
    requires NoHeader(a)
    ensures Decodes(a + [Sets(KEY_DIR, v)] + b) <==> Decodes(a + b) && Name(None, KEY_DIR) !in Slots(a + b, None)
    ensures Decodes(a + [Sets(KEY_DIR, v)] + b) ==> TopKeyDir(a + [Sets(KEY_DIR, v)] + b) == Some(v)
  {
    var m := Sets(KEY_DIR, v);
    TableStays(a, None);
    SlotsAround(a, m, b);
    DistinctAround(Slots(a, None), Name(None, KEY_DIR), Slots(b, None));
    TopOfConcat(a + [m], b);
    TopOfConcat(a, [m]);
    TopIsASlot(a);
    assert TopKeyDir([m]) == Some(v);
  }

  lemma TopBelow(a: seq<Meaning>, v: string, b: seq<Meaning>)
    requires !NoHeader(a)
    ensures TopKeyDir(a + [Sets(KEY_DIR, v)] + b) == TopKeyDir(a)
  {
    TopOfConcat(a + [Sets(KEY_DIR, v)], b);
    TopOfConcat(a, [Sets(KEY_DIR, v)]);
  }

  /** The main file after the edit states `dir` where it takes it, and otherwise what it would
      state whatever had been written. */
  lemma StatedAfterWriting(t: Toml, main: Path, body: string, dir: string)
    requires ReadsLines(t)
    ensures var after := Loaded(t, main, WithKeyDir(t.rules, body, dir));
            && after.path == main
            && after.file.keyDir == (if !AllSurvive(t.rules, dir) then None
                                     else if Accepts(t, body) then Some(dir) else Stale(t, body))
            && (AllSurvive(t.rules, dir) && Accepts(t, body) ==> after.decoded)
  {
    hide Quote, WithKeyDir, Meanings, ReadBasic, AllSurvive, Before, Behind, Slots, TopKeyDir;
    var a, b := Before(t, body), Behind(t, body);
    MeaningsAfterWriting(t, body, dir);
    QuoteReadsExactly(t.rules, dir);
    if AllSurvive(t.rules, dir) {
      DecodesWhateverValue(a, dir, b);
      if NoHeader(a) {
        DecodesAbove(a, dir, b);
      } else {
        TopBelow(a, dir, b);
      }
      if NoHeader(a) && !Accepts(t, body) {
        assert !Decodes(a + [Sets(KEY_DIR, dir)] + b);
      }
    } else {
      assert Broken in a + [Broken] + b;
    }
  }

  /** The key directory the next login uses, whatever was written: that of the last later file to
      set one, else the directory where the main file takes it, else what it states regardless. */
  lemma KeyDirAfterIs(sys: System, t: Toml, main: Path, body: string, rest: seq<Source>, env: Env, dir: string)
    requires ReadsLines(t)
    ensures KeyDirAfter(sys, t, main, body, rest, env, dir) ==
            Overriding(if !AllSurvive(t.rules, dir) then None
                       else if Accepts(t, body) then Some(dir) else Stale(t, body), rest)
  {
    hide Overriding, Loaded, Resolve, Merged, Accepts, Stale, AllSurvive;
    StatedAfterWriting(t, main, body, dir);
    KeyDirInForce(sys, Loaded(t, main, WithKeyDir(t.rules, body, dir)), rest, env);
  }

  // ------------------------------------------------------------------------ main results

  predicate ReadAfterMain(rest: seq<Source>, main: Path) {
    main != "" && forall i :: 0 <= i < |rest| ==> rest[i].path != "" && rest[i].path != main
  }

  lemma CheckIs(sys: System, t: Toml, main: Path, body: Option<string>, rest: seq<Source>, env: Env)
    requires ReadAfterMain(rest, main)
    ensures KeyDirDecidedElsewhere(sys, Sources(t, main, body, rest), env, main) == ""
       <==> LastWriting(rest, KeyDir).None?
  {
    hide Line, Meanings, Merged, LastWriting;
    var sources := Sources(t, main, body, rest);
    assert DropIns(sources, main) == rest;
    DecidedByDropIns(sys, sources, env, main);
  }

  lemma PlainSurvives(r: Rules)
    ensures AllSurvive(r, "x") && AllSurvive(r, "y")
  {}

  /** Writing key_dir puts it in force, whatever directory it is of those whose quoting reads
      back, exactly when the check made beforehand names no other file and the main file takes
      the line. Where both hold, a directory is in force exactly if its quoting reads back. */
  lemma TakesEffectExactly(sys: System, t: Toml, main: Path, body: Option<string>, template: string,
                           rest: seq<Source>, env: Env)
    requires ReadsLines(t) && ReadAfterMain(rest, main)
    ensures var text := Edited(body, template);
            var checked := KeyDirDecidedElsewhere(sys, Sources(t, main, body, rest), env, main) == "";
            && (checked && Accepts(t, text) <==>
                 forall dir :: AllSurvive(t.rules, dir) ==> KeyDirAfter(sys, t, main, text, rest, env, dir) == dir)
            && (checked && Accepts(t, text) ==>
                 forall dir :: KeyDirAfter(sys, t, main, text, rest, env, dir) == dir <==> AllSurvive(t.rules, dir))
  {
    hide KeyDirDecidedElsewhere, KeyDirAfter, Accepts, Stale, LastWriting, AllSurvive;
    var text := Edited(body, template);
    CheckIs(sys, t, main, body, rest, env);
    forall dir
      ensures KeyDirAfter(sys, t, main, text, rest, env, dir) ==
              Overriding(if !AllSurvive(t.rules, dir) then None
                         else if Accepts(t, text) then Some(dir) else Stale(t, text), rest)
    {
      KeyDirAfterIs(sys, t, main, text, rest, env, dir);
    }
    NothingSurvives(t.rules);
    PlainSurvives(t.rules);
    if LastWriting(rest, KeyDir).Some? || !Accepts(t, text) {
      assert KeyDirAfter(sys, t, main, text, rest, env, "x") == KeyDirAfter(sys, t, main, text, rest, env, "y");
      assert "x"[0] != "y"[0];
    }
  }

  lemma NothingSurvives(r: Rules)
    ensures AllSurvive(r, "")
  {}

  /** A main file that does not decode and has no line for key_dir: the check names nothing, the
      edit leaves it as unreadable as it was, and no directory written is ever in force. */
  lemma UndecodableStaysSo(sys: System, t: Toml, main: Path, bad: string, env: Env, dir: string)
    requires ReadsLines(t) && main != "" && '\n' !in bad && !Assigns(bad) && t.line(bad).Broken?
    ensures !Loaded(t, main, bad).decoded
    ensures KeyDirDecidedElsewhere(sys, [Loaded(t, main, bad)], env, main) == ""
    ensures KeyDirAfter(sys, t, main, bad, [], env, dir) == ""
  {
    hide KeyDirDecidedElsewhere, KeyDirAfter;
    SplitFree(bad, '\n');
    MeaningsOfOne(t, bad);
    OneLineIs(t, bad);
    assert Broken in [Broken];
    CheckIs(sys, t, main, Some(bad), [], env);
    assert Sources(t, main, Some(bad), []) == [Loaded(t, main, bad)];
    KeyDirAfterIs(sys, t, main, bad, [], env, dir);
    assert Broken in [Broken] + [] && Broken in [Broken] + [Sets(KEY_DIR, "")] + [];
  }

  lemma OneLineIs(t: Toml, line: string)
    requires '\n' !in line
    ensures Before(t, line) == if Assigns(line) then [] else Meanings(t, [line])
    ensures Behind(t, line) == []
  {
    SplitFree(line, '\n');
    assert FirstAssigning([line]) == if Assigns(line) then 0 else 1;
  }

  /** A file that does not decode for its key_dir line alone is put right by the edit. */
  lemma BrokenAssignmentIsRepaired(t: Toml, main: Path, bad: string, dir: string)
    requires ReadsLines(t) && '\n' !in bad && Assigns(bad) && t.line(bad).Broken? && AllSurvive(t.rules, dir)
    ensures !Loaded(t, main, bad).decoded
    ensures Loaded(t, main, WithKeyDir(t.rules, bad, dir)).decoded
    ensures Loaded(t, main, WithKeyDir(t.rules, bad, dir)).file.keyDir == Some(dir)
  {
    SplitFree(bad, '\n');
    MeaningsOfOne(t, bad);
    OneLineIs(t, bad);
    assert Broken in [Broken];
    var none: seq<Meaning> := [];
    assert none + none == none;
    StatedAfterWriting(t, main, bad, dir);
  }
}
