/** The marker block the program keeps in a shell's startup file: how it is found,
    taken out and put in. `Stripped` and `Upserted` say what the two operations
    compute; the methods are the loops that compute it. */
module StartupBlock {
  import opened Text

  const MARKER_START := "# >>> sshakku >>>"
  const MARKER_END := "# <<< sshakku <<<"

  /** A line without the carriage return a CRLF file leaves at the end of it. */
  function Bare(line: string): string {
    if |line| > 0 && line[|line| - 1] == '\r' then line[..|line| - 1] else line
  }

  /** The lines of a file: one trailing newline ends the last line, it starts no other. */
  function Lines(content: string): seq<string> {
    if content == "" then [] else Split(TrimOneNewline(content), '\n')
  }

  /** Where the scan for the block stands: the lines kept so far, and whether it is inside. */
  datatype Scanner = Scanner(kept: seq<string>, skipping: bool)

  predicate IsMarker(line: string) {
    Bare(line) == MARKER_START || Bare(line) == MARKER_END
  }

  function Step(st: Scanner, line: string): Scanner {
    if Bare(line) == MARKER_START then st.(skipping := true)
    else if Bare(line) == MARKER_END then st.(skipping := false)
    else if st.skipping then st
    else st.(kept := st.kept + [line])
  }

  function Scan(ls: seq<string>, st: Scanner): Scanner {
    if ls == [] then st else Scan(ls[1..], Step(st, ls[0]))
  }

  /** Lines outside every block, scanning from inside one or not. */
  function Outside(ls: seq<string>, skipping: bool): seq<string> {
    Scan(ls, Scanner([], skipping)).kept
  }

  function TrimBlanks(ls: seq<string>): seq<string> {
    if ls != [] && Bare(ls[|ls| - 1]) == "" then TrimBlanks(ls[..|ls| - 1]) else ls
  }

  function Stripped(content: string): string {
    Unlines(TrimBlanks(Outside(Lines(content), false)))
  }

  function Block(body: string): string {
    MARKER_START + "\n" + body + "\n" + MARKER_END + "\n"
  }

  function Upserted(content: string, body: string): string {
    var kept := Stripped(content);
    if kept == "" then Block(body) else kept + "\n" + Block(body)
  }

  // ---------------------------------------------------------------- the loops

  method KeepOutside(ls: seq<string>) returns (kept: seq<string>)
    ensures kept == Outside(ls, false)
  {
    kept := [];
    var skipping := false;
    for i := 0 to |ls|
      invariant Scan(ls[i..], Scanner(kept, skipping)) == Scan(ls, Scanner([], false))
    {
      assert ls[i..][1..] == ls[i + 1..];
      var line := Bare(ls[i]);
      if line == MARKER_START {
        skipping := true;
      } else if line == MARKER_END {
        skipping := false;
      } else if !skipping {
        kept := kept + [ls[i]];
      }
    }
  }

  method WriteLines(ls: seq<string>) returns (out: string)
    ensures out == Unlines(ls)
  {
    out := "";
    for i := 0 to |ls|
      invariant out == Unlines(ls[..i])
    {
      assert ls[..i + 1] == ls[..i] + [ls[i]];
      UnlinesConcat(ls[..i], [ls[i]]);
      assert Unlines([ls[i]]) == ls[i] + "\n";
      out := out + ls[i] + "\n";
    }
    assert ls[..|ls|] == ls;
  }

  method StripBlock(content: string) returns (out: string)
    ensures out == Stripped(content)
  {
    var kept := KeepOutside(Lines(content));
    ghost var all := kept;
    while |kept| > 0 && Bare(kept[|kept| - 1]) == ""
      invariant TrimBlanks(kept) == TrimBlanks(all)
    {
      kept := kept[..|kept| - 1];
    }
    out := WriteLines(kept);
  }

  method UpsertBlock(content: string, body: string) returns (out: string)
    ensures out == Upserted(content, body)
  {
    out := "";
    var kept := StripBlock(content);
    if |kept| > 0 {
      out := kept + "\n";
    }
    ghost var before := out;
    out := out + MARKER_START + "\n";
    out := out + body + "\n";
    out := out + MARKER_END + "\n";
    BlockAppended(before, MARKER_START, body, MARKER_END);
  }

  lemma BlockAppended(out: string, first: string, body: string, last: string)
    ensures out + first + "\n" + body + "\n" + last + "\n"
         == out + (first + "\n" + body + "\n" + last + "\n")
  {
    assert first + "\n" + body + "\n" + last + "\n"
        == (first + "\n") + (body + "\n") + (last + "\n");
    assert out + first + "\n" == out + (first + "\n");
    assert out + first + "\n" + body + "\n" == out + ((first + "\n") + (body + "\n"));
  }

  // ------------------------------------------------------- laws of the scan

  lemma {:induction false} ScanConcat(a: seq<string>, b: seq<string>, st: Scanner)
    ensures Scan(a + b, st) == Scan(b, Scan(a, st))
  {
    if a == [] {
      assert a + b == b;
    } else {
      assert (a + b)[1..] == a[1..] + b;
      ScanConcat(a[1..], b, Step(st, a[0]));
    }
  }

  lemma {:induction false} ScanFromKept(ls: seq<string>, kept: seq<string>, skipping: bool)
    ensures Scan(ls, Scanner(kept, skipping)).kept == kept + Outside(ls, skipping)
    ensures Scan(ls, Scanner(kept, skipping)).skipping == Scan(ls, Scanner([], skipping)).skipping
    decreases |ls|
  {
    if ls == [] {
      assert kept + [] == kept;
    } else {
      var st := Step(Scanner(kept, skipping), ls[0]);
      var base := Step(Scanner([], skipping), ls[0]);
      assert st.kept == kept + base.kept;
      ScanFromKept(ls[1..], st.kept, st.skipping);
      ScanFromKept(ls[1..], base.kept, base.skipping);
      assert st.kept + Outside(ls[1..], st.skipping)
          == kept + (base.kept + Outside(ls[1..], st.skipping));
    }
  }

  predicate NoMarkers(ls: seq<string>) {
    forall i :: 0 <= i < |ls| ==> !IsMarker(ls[i])
  }

  lemma {:induction false} ScanWithoutMarkers(ls: seq<string>, st: Scanner)
    requires NoMarkers(ls)
    ensures Scan(ls, st) == if st.skipping then st else st.(kept := st.kept + ls)
  {
    if ls == [] {
      assert st.kept + [] == st.kept;
    } else {
      var line, rest := ls[0], ls[1..];
      assert !IsMarker(line);
      assert NoMarkers(rest);
      ScanWithoutMarkers(rest, Step(st, line));
      if !st.skipping {
        assert st.kept + [line] + rest == st.kept + ls;
      }
    }
  }

  /** What survives the scan holds no marker, and no newline when the lines held none. */
  lemma {:induction false} OutsideIsClean(ls: seq<string>, st: Scanner)
    requires Free(ls, '\n') && NoMarkers(st.kept) && Free(st.kept, '\n')
    ensures NoMarkers(Scan(ls, st).kept) && Free(Scan(ls, st).kept, '\n')
  {
    if ls != [] {
      OutsideIsClean(ls[1..], Step(st, ls[0]));
    }
  }

  lemma {:induction false} TrimBlanksIsPrefix(ls: seq<string>)
    ensures TrimBlanks(ls) <= ls
    ensures TrimBlanks(TrimBlanks(ls)) == TrimBlanks(ls)
    ensures TrimBlanks(ls) == ls <==> ls == [] || Bare(ls[|ls| - 1]) != ""
    decreases |ls|
  {
    if ls != [] && Bare(ls[|ls| - 1]) == "" {
      TrimBlanksIsPrefix(ls[..|ls| - 1]);
    }
  }

  predicate AllBare(ls: seq<string>) {
    forall i :: 0 <= i < |ls| ==> Bare(ls[i]) == ""
  }

  /** Trimming takes a tail away whole exactly when every line of it is blank. */
  lemma {:induction false} TrimBlanksOfConcat(a: seq<string>, b: seq<string>)
    requires TrimBlanks(a) == a
    ensures TrimBlanks(a + b) == a <==> AllBare(b)
    decreases |b|
  {
    if b == [] {
      assert a + b == a;
    } else {
      var last := b[|b| - 1];
      assert (a + b)[|a + b| - 1] == last;
      if Bare(last) == "" {
        var front := b[..|b| - 1];
        assert (a + b)[..|a + b| - 1] == a + front;
        TrimBlanksOfConcat(a, front);
        assert b == front + [last];
      } else {
        assert TrimBlanks(a + b) == a + b && |a + b| > |a|;
      }
    }
  }

  lemma {:induction false} TrimBlanksKeepsTail(a: seq<string>, b: seq<string>)
    ensures AllBare(b) ==> TrimBlanks(a + b) == TrimBlanks(a)
    decreases |b|
  {
    if b == [] {
      assert a + b == a;
    } else {
      assert (a + b)[|a + b| - 1] == b[|b| - 1];
      assert (a + b)[..|a + b| - 1] == a + b[..|b| - 1];
      TrimBlanksKeepsTail(a, b[..|b| - 1]);
    }
  }

  // ------------------------------------------------------------ lines and text

  lemma LinesAreFree(content: string)
    ensures Free(Lines(content), '\n')
  {
    SplitIsFree(TrimOneNewline(content), '\n');
  }

  lemma LinesOfUnlines(ls: seq<string>)
    requires Free(ls, '\n')
    ensures Lines(Unlines(ls)) == ls
  {
    if ls != [] {
      UnlinesJoin(ls);
      var joined := Join(ls, '\n');
      assert (joined + "\n")[..|joined|] == joined;
      SplitJoin(ls, '\n');
    }
  }

  lemma UnlinesOfLines(content: string)
    requires content != ""
    ensures Unlines(Lines(content)) == TrimOneNewline(content) + "\n"
  {
    UnlinesSplit(TrimOneNewline(content));
  }

  function KeptLines(content: string): seq<string> {
    TrimBlanks(Outside(Lines(content), false))
  }

  lemma KeptLinesAreClean(content: string)
    ensures NoMarkers(KeptLines(content)) && Free(KeptLines(content), '\n')
    ensures TrimBlanks(KeptLines(content)) == KeptLines(content)
    ensures Lines(Stripped(content)) == KeptLines(content)
  {
    var out := Outside(Lines(content), false);
    LinesAreFree(content);
    OutsideIsClean(Lines(content), Scanner([], false));
    TrimBlanksIsPrefix(out);
    var kept := KeptLines(content);
    forall i | 0 <= i < |kept|
      ensures !IsMarker(kept[i]) && '\n' !in kept[i]
    {
      assert kept[i] == out[i];
    }
    LinesOfUnlines(kept);
  }

  lemma MarkersAreMarkers()
    ensures Bare(MARKER_START) == MARKER_START && Bare(MARKER_END) == MARKER_END
    ensures MARKER_START != MARKER_END
    ensures '\n' !in MARKER_START && '\n' !in MARKER_END
  {
    assert MARKER_START[2] != MARKER_END[2];
  }

  function BlockLines(body: string): seq<string> {
    [MARKER_START] + Split(body, '\n') + [MARKER_END]
  }

  lemma BlockLinesAreTheBlock(body: string)
    ensures Unlines(BlockLines(body)) == Block(body)
    ensures Free(BlockLines(body), '\n')
  {
    MarkersAreMarkers();
    SplitIsFree(body, '\n');
    UnlinesSplit(body);
    UnlinesConcat([MARKER_START] + Split(body, '\n'), [MARKER_END]);
    UnlinesConcat([MARKER_START], Split(body, '\n'));
    assert Unlines([MARKER_START]) == MARKER_START + "\n";
    assert Unlines([MARKER_END]) == MARKER_END + "\n";
  }

  /** Scanning a block leaves nothing behind but what escapes it after a stray end marker. */
  lemma ScanBlock(body: string, kept: seq<string>)
    ensures Scan(BlockLines(body), Scanner(kept, false))
         == Scanner(kept + Escaping(body), false)
  {
    MarkersAreMarkers();
    var b := Split(body, '\n');
    ScanConcat([MARKER_START] + b, [MARKER_END], Scanner(kept, false));
    ScanConcat([MARKER_START], b, Scanner(kept, false));
    assert [MARKER_START][1..] == [];
    assert Scan([MARKER_START], Scanner(kept, false)) == Scanner(kept, true);
    ScanFromKept(b, kept, true);
    var mid := Scan(b, Scanner(kept, true));
    assert [MARKER_END][1..] == [];
    assert Scan([MARKER_END], mid) == mid.(skipping := false);
  }

  /** The lines of a body that end up outside the block it is wrapped in. */
  function Escaping(body: string): seq<string> {
    Outside(Split(body, '\n'), true)
  }

  predicate HoldsEndMarker(body: string) {
    exists i :: 0 <= i < |Split(body, '\n')| && Bare(Split(body, '\n')[i]) == MARKER_END
  }

  lemma {:induction false} NothingEscapes(ls: seq<string>)
    requires forall i :: 0 <= i < |ls| ==> Bare(ls[i]) != MARKER_END
    ensures Scan(ls, Scanner([], true)) == Scanner([], true)
  {
    if ls != [] {
      assert Bare(ls[0]) != MARKER_END;
      NothingEscapes(ls[1..]);
    }
  }

  // ------------------------------------------------------------- main results

  /** Stripping twice is stripping once, whatever the bytes: CRLF, an unterminated
      block, stray markers. */
  lemma StripIdempotent(content: string)
    ensures Stripped(Stripped(content)) == Stripped(content)
  {
    var kept := KeptLines(content);
    KeptLinesAreClean(content);
    ScanWithoutMarkers(kept, Scanner([], false));
    assert [] + kept == kept;
  }

  lemma KeepsEveryLine(content: string)
    ensures KeptLines(content) == Lines(content)
       <==> NoMarkers(Lines(content))
            && (content == "" || Bare(Lines(content)[|Lines(content)| - 1]) != "")
  {
    var ls := Lines(content);
    KeptLinesAreClean(content);
    TrimBlanksIsPrefix(ls);
    if NoMarkers(ls) {
      ScanWithoutMarkers(ls, Scanner([], false));
      assert [] + ls == ls;
    }
  }

  predicate EndsInNewline(content: string) {
    content != "" && content[|content| - 1] == '\n'
  }

  lemma NormalKeepsEveryLine(content: string)
    requires content != ""
    ensures Stripped(content) == content <==> EndsInNewline(content) && KeptLines(content) == Lines(content)
  {
    hide Lines, KeptLines, Unlines;
    KeptLinesAreClean(content);
    UnlinesOfLines(content);
    UnlinesEnd(KeptLines(content));
    assert Stripped(content) == Unlines(KeptLines(content)) by { StrippedIs(content); }
    assert EndsInNewline(content) ==> content == TrimOneNewline(content) + "\n";
  }

  lemma StrippedIs(content: string)
    ensures Stripped(content) == Unlines(KeptLines(content))
  {
  }

  lemma UnlinesEnd(ls: seq<string>)
    ensures Unlines(ls) == "" || EndsInNewline(Unlines(ls))
  {
    if ls != [] {
      UnlinesJoin(ls);
    }
  }

  /** Exactly which files stripping leaves alone: empty ones, and those that end in a
      newline, hold no marker and do not end in a blank line. */
  lemma NormalExactly(content: string)
    ensures Stripped(content) == content
       <==> content == ""
            || (content[|content| - 1] == '\n'
                && NoMarkers(Lines(content))
                && Bare(Lines(content)[|Lines(content)| - 1]) != "")
  {
    if content != "" {
      KeepsEveryLine(content);
      NormalKeepsEveryLine(content);
    }
  }

  /** A well-formed block anywhere in a file is taken out whole, and nothing else is but
      the blank lines left at the end. */
  lemma StripTakesOutTheBlock(before: seq<string>, body: string, after: seq<string>)
    requires NoMarkers(before) && NoMarkers(after) && Free(before, '\n') && Free(after, '\n')
    requires !HoldsEndMarker(body)
    ensures Stripped(Unlines(before) + Block(body) + Unlines(after)) == Unlines(TrimBlanks(before + after))
  {
    var mid := BlockLines(body);
    BlockLinesAreTheBlock(body);
    UnlinesConcat(before, mid);
    UnlinesConcat(before + mid, after);
    LinesOfUnlines(before + mid + after);
    var start := Scanner([], false);
    ScanConcat(before + mid, after, start);
    ScanConcat(before, mid, start);
    ScanWithoutMarkers(before, start);
    assert [] + before == before;
    NothingEscapes(Split(body, '\n'));
    ScanBlock(body, before);
    assert before + [] == before;
    ScanWithoutMarkers(after, Scanner(before, false));
  }

  /** What stands before the block in an upserted file: the kept lines and a blank one. */
  function Lead(content: string): seq<string> {
    if KeptLines(content) == [] then [] else KeptLines(content) + [""]
  }

  lemma LeadIsClean(content: string)
    ensures NoMarkers(Lead(content)) && Free(Lead(content), '\n')
  {
    hide KeptLines, IsMarker;
    KeptLinesAreClean(content);
    BlankIsNoMarker();
  }

  lemma BlankIsNoMarker()
    ensures !IsMarker("")
  {
    assert |MARKER_START| > 0 && |MARKER_END| > 0;
  }

  lemma LinesOfUpserted(content: string, body: string)
    ensures Lines(Upserted(content, body)) == Lead(content) + BlockLines(body)
  {
    var kept := KeptLines(content);
    LeadIsClean(content);
    BlockLinesAreTheBlock(body);
    UnlinesConcat(Lead(content), BlockLines(body));
    LinesOfUnlines(Lead(content) + BlockLines(body));
    if kept == [] {
      assert "" + Block(body) == Block(body);
    } else {
      UnlinesConcat(kept, [""]);
      assert Unlines([""]) == "\n";
      assert Stripped(content) != "";
    }
  }

  lemma OutsideOfUpserted(content: string, body: string)
    ensures Outside(Lines(Upserted(content, body)), false) == Lead(content) + Escaping(body)
  {
    var lead := Lead(content);
    var start := Scanner([], false);
    LinesOfUpserted(content, body);
    LeadIsClean(content);
    ScanConcat(lead, BlockLines(body), start);
    ScanWithoutMarkers(lead, start);
    assert [] + lead == lead;
    ScanBlock(body, lead);
  }

  lemma TrimOverGap(kept: seq<string>, esc: seq<string>)
    requires TrimBlanks(kept) == kept
    ensures var lead := if kept == [] then [] else kept + [""];
            TrimBlanks(lead + esc) == kept <==> AllBare(esc)
  {
    var gap := if kept == [] then [] else [""];
    var lead := if kept == [] then [] else kept + [""];
    assert lead + esc == kept + (gap + esc);
    TrimBlanksOfConcat(kept, gap + esc);
    GapIsBare(gap, esc);
  }

  lemma KeptLinesOfUpserted(content: string, body: string)
    ensures KeptLines(Upserted(content, body)) == KeptLines(content) <==> AllBare(Escaping(body))
  {
    OutsideOfUpserted(content, body);
    TrimBlanksIsPrefix(Outside(Lines(content), false));
    TrimOverGap(KeptLines(content), Escaping(body));
  }

  /** Taking the block out undoes putting it in, up to the normalisation stripping does
      anyway, exactly when no line escapes the block that is more than blank. */
  lemma StripUndoesUpsert(content: string, body: string)
    ensures Stripped(Upserted(content, body)) == Stripped(content) <==> AllBare(Escaping(body))
  {
    KeptLinesOfUpserted(content, body);
    SameStripped(Upserted(content, body), content);
  }

  lemma SameStripped(a: string, b: string)
    ensures Stripped(a) == Stripped(b) <==> KeptLines(a) == KeptLines(b)
  {
    KeptLinesAreClean(a);
    KeptLinesAreClean(b);
  }

  lemma GapIsBare(gap: seq<string>, esc: seq<string>)
    requires AllBare(gap)
    ensures AllBare(gap + esc) <==> AllBare(esc)
  {
    forall i | 0 <= i < |esc|
      ensures (gap + esc)[|gap| + i] == esc[i]
    {
    }
  }

  /** A body none of whose lines is the end marker keeps everything inside its block. */
  lemma NoEndMarkerNoEscape(body: string)
    requires !HoldsEndMarker(body)
    ensures Escaping(body) == []
  {
    NothingEscapes(Split(body, '\n'));
  }

  /** A body carrying the end marker before an ordinary line leaves that line behind in
      every file it is put into. */
  lemma EndMarkerInBodyLeaks(content: string, x: string)
    requires '\n' !in x && !IsMarker(x) && Bare(x) != ""
    ensures Stripped(Upserted(content, MARKER_END + "\n" + x)) != Stripped(content)
  {
    MarkersAreMarkers();
    var body := MARKER_END + "\n" + x;
    SplitConcat(MARKER_END, x, '\n');
    SplitFree(MARKER_END, '\n');
    SplitFree(x, '\n');
    ScanEndThenLine(x);
    assert Bare(Escaping(body)[0]) != "";
    StripUndoesUpsert(content, body);
  }

  lemma ScanEndThenLine(x: string)
    requires !IsMarker(x)
    ensures Outside([MARKER_END] + [x], true) == [x]
  {
    MarkersAreMarkers();
    ScanConcat([MARKER_END], [x], Scanner([], true));
    assert [MARKER_END][1..] == [] && [x][1..] == [];
    assert Scan([MARKER_END], Scanner([], true)) == Scanner([], false);
    assert Scan([x], Scanner([], false)) == Scanner([x], false);
  }

  lemma UpsertTellsStripped(a: string, b: string, body: string)
    ensures Upserted(a, body) == Upserted(b, body) <==> Stripped(a) == Stripped(b)
  {
    hide Stripped, Block;
    if Upserted(a, body) == Upserted(b, body) {
      assert |Upserted(a, body)| == |Upserted(b, body)|;
      if Stripped(a) != "" && Stripped(b) != "" {
        PrefixOf(Stripped(a), "\n" + Block(body), Stripped(b));
        assert Upserted(a, body) == Stripped(a) + ("\n" + Block(body));
        assert Upserted(b, body) == Stripped(b) + ("\n" + Block(body));
      }
    }
  }

  lemma PrefixOf(a: string, rest: string, b: string)
    ensures a + rest == b + rest ==> a == b
  {
    assert (a + rest)[..|a + rest| - |rest|] == a;
    assert (b + rest)[..|b + rest| - |rest|] == b;
  }

  /** A later body replaces an earlier one, and the same body twice is that body once, exactly
      when no line of the earlier one escaped its block that is more than blank. */
  lemma UpsertReplaces(content: string, first: string, second: string)
    ensures Upserted(Upserted(content, first), second) == Upserted(content, second) <==> AllBare(Escaping(first))
  {
    UpsertTellsStripped(Upserted(content, first), content, second);
    StripUndoesUpsert(content, first);
  }
}
