/** A list of directories held in one environment variable, changed as text: an entry goes in
    at the end, and comes out leaving every other as it was written. */
module PathList {
  import opened Text

  /** How one system spells such a list, and which entries it takes to name the same directory. */
  datatype Rules = Rules(separator: char, same: (string, string) -> bool)

  datatype Change = Change(text: string, changed: bool)

  function Entries(l: Rules, raw: string): seq<string> {
    Split(raw, l.separator)
  }

  predicate AnySame(l: Rules, entries: seq<string>, dir: string) {
    exists i :: 0 <= i < |entries| && l.same(entries[i], dir)
  }

  predicate Holds(l: Rules, raw: string, dir: string) {
    AnySame(l, Entries(l, raw), dir)
  }

  predicate EndsIn(raw: string, c: char) {
    raw != "" && raw[|raw| - 1] == c
  }

  function Added(l: Rules, raw: string, dir: string): Change {
    if dir == "" || Holds(l, raw, dir) then Change(raw, false)
    else if Blank(raw) then Change(dir, true)
    else if EndsIn(raw, l.separator) then Change(raw + dir, true)
    else Change(raw + [l.separator] + dir, true)
  }

  /** The entries that do not name `dir`, in order. */
  function Others(l: Rules, entries: seq<string>, dir: string): seq<string> {
    if entries == [] then []
    else
      var last := |entries| - 1;
      Others(l, entries[..last], dir) + (if l.same(entries[last], dir) then [] else [entries[last]])
  }

  function Removed(l: Rules, raw: string, dir: string): Change {
    if dir == "" || raw == "" || !Holds(l, raw, dir) then Change(raw, false)
    else Change(Join(Others(l, Entries(l, raw), dir), l.separator), true)
  }

  // ------------------------------------------------------------------ the operations

  method Has(l: Rules, raw: string, dir: string) returns (has: bool)
    ensures has == Holds(l, raw, dir)
  {
    var entries := Split(raw, l.separator);
    for i := 0 to |entries|
      invariant !AnySame(l, entries[..i], dir)
    {
      if l.same(entries[i], dir) {
        return true;
      }
      assert forall k :: 0 <= k < i ==> entries[k] == entries[..i][k];
    }
    assert entries[..|entries|] == entries;
    return false;
  }

  method Add(l: Rules, raw: string, dir: string) returns (r: Change)
    ensures r == Added(l, raw, dir)
  {
    if dir == "" {
      return Change(raw, false);
    }
    var has := Has(l, raw, dir);
    if has {
      return Change(raw, false);
    }
    TrimSpaceEmptiesBlank(raw);
    if TrimSpace(raw) == "" {
      return Change(dir, true);
    }
    if raw[|raw| - 1] == l.separator {
      return Change(raw + dir, true);
    }
    return Change(raw + [l.separator] + dir, true);
  }

  method Remove(l: Rules, raw: string, dir: string) returns (r: Change)
    ensures r == Removed(l, raw, dir)
  {
    if dir == "" || raw == "" {
      return Change(raw, false);
    }
    var entries := Split(raw, l.separator);
    var kept: seq<string> := [];
    for i := 0 to |entries|
      invariant kept == Others(l, entries[..i], dir)
    {
      assert entries[..i + 1][..i] == entries[..i];
      if !l.same(entries[i], dir) {
        kept := kept + [entries[i]];
      }
    }
    assert entries[..|entries|] == entries;
    OthersCount(l, entries, dir);
    if |kept| == |entries| {
      return Change(raw, false);
    }
    return Change(Join(kept, l.separator), true);
  }

  // --------------------------------------------------------------- what stays behind

  /** Fewer entries are kept than there were exactly when one of them names `dir`. */
  lemma {:induction false} OthersCount(l: Rules, entries: seq<string>, dir: string)
    ensures |Others(l, entries, dir)| <= |entries|
    ensures |Others(l, entries, dir)| < |entries| <==> AnySame(l, entries, dir)
    ensures !AnySame(l, entries, dir) ==> Others(l, entries, dir) == entries
  {
    if entries != [] {
      var last := |entries| - 1;
      var front := entries[..last];
      OthersCount(l, front, dir);
      assert entries == front + [entries[last]];
      AnySameConcat(l, front, [entries[last]], dir);
      assert AnySame(l, [entries[last]], dir) <==> l.same([entries[last]][0], dir);
    }
  }

  lemma AnySameConcat(l: Rules, a: seq<string>, b: seq<string>, dir: string)
    ensures AnySame(l, a + b, dir) <==> AnySame(l, a, dir) || AnySame(l, b, dir)
  {
    assert forall i :: 0 <= i < |a| ==> (a + b)[i] == a[i];
    assert forall i :: 0 <= i < |b| ==> (a + b)[|a| + i] == b[i];
  }

  lemma {:induction false} OthersHold(l: Rules, entries: seq<string>, dir: string, sep: char)
    requires Free(entries, sep)
    ensures Free(Others(l, entries, dir), sep)
    ensures !AnySame(l, Others(l, entries, dir), dir)
  {
    if entries != [] {
      var last := |entries| - 1;
      OthersHold(l, entries[..last], dir, sep);
      assert l.same(entries[last], dir) ==> Others(l, entries, dir) == Others(l, entries[..last], dir);
    }
  }

  lemma {:induction false} OthersAppend(l: Rules, entries: seq<string>, dir: string)
    requires l.same(dir, dir)
    ensures Others(l, entries + [dir], dir) == Others(l, entries, dir)
  {
    assert (entries + [dir])[..|entries|] == entries;
  }

  /** Every other entry survives exactly as written and in its place, none is left that names
      `dir`, and a second removal changes nothing. */
  lemma RemoveKeepsTheOthers(l: Rules, raw: string, dir: string)
    requires dir != "" && raw != ""
    ensures var others := Others(l, Entries(l, raw), dir);
            var text := Removed(l, raw, dir).text;
            && (others != [] ==> Entries(l, text) == others && !Holds(l, text, dir))
            && (others == [] ==> text == "")
            && Removed(l, text, dir) == Change(text, false)
  {
    var entries := Entries(l, raw);
    var others := Others(l, entries, dir);
    SplitIsFree(raw, l.separator);
    OthersHold(l, entries, dir, l.separator);
    OthersCount(l, entries, dir);
    if others != [] {
      SplitJoin(others, l.separator);
    }
  }

  // ------------------------------------------------------------------- in and out again

  /** Adding changes nothing already in the list: the new entry stands last, and where the list
      said nothing it is the whole of it. */
  lemma AddPutsItLast(l: Rules, raw: string, dir: string)
    requires dir != "" && l.separator !in dir && !Holds(l, raw, dir)
    ensures var was := Entries(l, raw);
            Entries(l, Added(l, raw, dir).text)
            == (if Blank(raw) then [dir]
                else if EndsIn(raw, l.separator) then was[..|was| - 1] + [dir]
                else was + [dir])
  {
    var sep := l.separator;
    SplitFree(dir, sep);
    if Blank(raw) {
    } else if EndsIn(raw, sep) {
      var front := raw[..|raw| - 1];
      assert raw == front + [sep] + "";
      assert raw + dir == front + [sep] + dir;
      SplitConcat(front, "", sep);
      SplitConcat(front, dir, sep);
    } else {
      SplitConcat(raw, dir, sep);
    }
  }

  /** However often it is added, the entry is there once. */
  lemma AddIsIdempotent(l: Rules, raw: string, dir: string)
    requires l.separator !in dir && l.same(dir, dir)
    ensures var text := Added(l, raw, dir).text;
            Added(l, text, dir) == Change(text, false)
  {
    if dir != "" && !Holds(l, raw, dir) {
      AddPutsItLast(l, raw, dir);
      var now := Entries(l, Added(l, raw, dir).text);
      assert l.same(now[|now| - 1], dir);
    }
  }

  /** Where entries are compared letter by letter, that the directory holds no separator is
      exactly what this takes: one that does is never found again, and added every time. */
  lemma AddIsIdempotentExactly(l: Rules, raw: string, dir: string)
    requires forall a, b :: l.same(a, b) <==> a == b
    ensures Added(l, Added(l, raw, dir).text, dir).changed <==> l.separator in dir
  {
    if l.separator !in dir {
      AddIsIdempotent(l, raw, dir);
    } else {
      SplitIsFree(raw, l.separator);
      SplitIsFree(Added(l, raw, dir).text, l.separator);
    }
  }

  /** What taking `dir` out of `front` + `dir` leaves. */
  lemma RemoveTheLast(l: Rules, text: string, front: seq<string>, dir: string)
    requires dir != "" && l.separator !in dir && l.same(dir, dir)
    requires text != "" && Entries(l, text) == front + [dir] && !AnySame(l, front, dir)
    ensures Removed(l, text, dir) == Change(Join(front, l.separator), true)
  {
    assert (front + [dir])[|front|] == dir;
    OthersAppend(l, front, dir);
    OthersCount(l, front, dir);
  }

  lemma AddAtASeparatorThenRemove(l: Rules, raw: string, dir: string)
    requires dir != "" && l.separator !in dir && l.same(dir, dir) && !Holds(l, raw, dir)
    requires !Blank(raw) && EndsIn(raw, l.separator)
    ensures Removed(l, Added(l, raw, dir).text, dir).text == raw[..|raw| - 1]
  {
    var front := raw[..|raw| - 1];
    var before := Split(front, l.separator);
    AddPutsItLast(l, raw, dir);
    assert raw == front + [l.separator] + "";
    SplitConcat(front, "", l.separator);
    assert Entries(l, raw) == before + [""];
    AnySameConcat(l, before, [""], dir);
    RemoveTheLast(l, raw + dir, before, dir);
    JoinSplit(front, l.separator);
  }

  /** Taking out what was put in gives the list back byte for byte exactly when it was empty, or
      said something and did not end in a separator; otherwise that separator, or the white
      space, is lost. */
  lemma AddThenRemove(l: Rules, raw: string, dir: string)
    requires dir != "" && l.separator !in dir && l.same(dir, dir) && !Holds(l, raw, dir)
    ensures Removed(l, Added(l, raw, dir).text, dir).text == raw
            <==> raw == "" || (!Blank(raw) && !EndsIn(raw, l.separator))
  {
    if Blank(raw) {
      AddPutsItLast(l, raw, dir);
      assert [] + [dir] == [dir];
      RemoveTheLast(l, dir, [], dir);
    } else if EndsIn(raw, l.separator) {
      AddAtASeparatorThenRemove(l, raw, dir);
    } else {
      AddPutsItLast(l, raw, dir);
      RemoveTheLast(l, Added(l, raw, dir).text, Entries(l, raw), dir);
      JoinSplit(raw, l.separator);
    }
  }

  // -------------------------------------------------------------- one system's own rule

  function TrimRight(s: string, c: char): string {
    if EndsIn(s, c) then TrimRight(s[..|s| - 1], c) else s
  }

  /** A path without the separators at its end, unless it is nothing else. */
  function TrimTrailing(path: string, c: char): string {
    var trimmed := TrimRight(path, c);
    if trimmed == "" then path else trimmed
  }

  predicate UnixSame(a: string, b: string) {
    TrimTrailing(a, '/') == TrimTrailing(b, '/')
  }

  const UNIX := Rules(':', UnixSame)

  /** A slash at the end makes no other directory of a path, except of one that is nothing but
      slashes: each root stays an entry of its own. */
  lemma SlashAtTheEnd(a: string)
    ensures UNIX.same(a + "/", a) <==> TrimRight(a, '/') != ""
  {
    assert (a + "/")[..|a|] == a;
  }
}
