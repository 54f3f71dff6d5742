/** The lines printed for a shell to run, and readers for them: one following the quoting
    rules of the POSIX.1-2017 Shell Command Language (sections 2.2.1 and 2.2.2), one the
    verbatim strings of the PowerShell Language Specification 3.0 (section 2.3.5.2). A reader
    answers None for a line that would do anything other than assign a literal. */
module ShellQuoting {
  import opened Text
  import opened Wrappers

  datatype Assignment = Variable(name: string, value: string) | Environment(name: string, value: string)

  predicate IsNameStart(c: char) {
    'a' <= c <= 'z' || 'A' <= c <= 'Z' || c == '_'
  }

  predicate IsNameChar(c: char) {
    IsNameStart(c) || '0' <= c <= '9'
  }

  predicate AllNameChars(s: string) {
    forall i :: 0 <= i < |s| ==> IsNameChar(s[i])
  }

  predicate IsName(s: string) {
    s != "" && IsNameStart(s[0]) && AllNameChars(s)
  }

  // --------------------------------------------------------------------- printing

  /** Apostrophes replaced by: leave the literal, an escaped apostrophe, open another. */
  function Escaped(s: string): string {
    if s == "" then "" else (if s[0] == '\'' then "'\\''" else [s[0]]) + Escaped(s[1..])
  }

  function Quote(s: string): string {
    "'" + Escaped(s) + "'"
  }

  /** Every character PowerShell reads as a single quote. */
  predicate IsQuote(c: char) {
    c == '\'' || c == '\U{2018}' || c == '\U{2019}' || c == '\U{201A}' || c == '\U{201B}'
  }

  function Doubled(s: string): string {
    if s == "" then ""
    else Doubled(s[..|s| - 1]) + (if IsQuote(s[|s| - 1]) then [s[|s| - 1], s[|s| - 1]] else [s[|s| - 1]])
  }

  method PowerShellSingleQuote(s: string) returns (r: string)
    ensures r == PowerShellQuoted(s)
  {
    r := "'";
    for i := 0 to |s|
      invariant r == "'" + Doubled(s[..i])
    {
      assert s[..i + 1][..i] == s[..i];
      if IsQuote(s[i]) {
        r := r + [s[i]];
      }
      r := r + [s[i]];
    }
    assert s[..|s|] == s;
    r := r + "'";
  }

  /** The quoted value PowerShell is given. */
  function PowerShellQuoted(s: string): string {
    "'" + Doubled(s) + "'"
  }

  function PosixAssign(name: string, value: string): string {
    name + ("=" + (Quote(value) + "\n"))
  }

  function PosixLine(a: Assignment): string {
    match a
    case Variable(name, value) => PosixAssign(name, value)
    case Environment(name, value) => "export " + PosixAssign(name, value)
  }

  function PowerShellAssign(name: string, value: string): string {
    name + (" = " + (PowerShellQuoted(value) + "\n"))
  }

  function PowerShellLine(a: Assignment): string {
    match a
    case Variable(name, value) => "$" + PowerShellAssign(name, value)
    case Environment(name, value) => "$env:" + PowerShellAssign(name, value)
  }

  function PosixScript(items: seq<Assignment>): string {
    if items == [] then "" else PosixLine(items[0]) + PosixScript(items[1..])
  }

  function PowerShellScript(items: seq<Assignment>): string {
    if items == [] then "" else PowerShellLine(items[0]) + PowerShellScript(items[1..])
  }

  // ---------------------------------------------------------------------- reading

  /** What is read, and what is left after it. */
  type Read = Option<(string, string)>

  function Prepend(c: char, r: Read): Read {
    if r.None? then None else Some(([c] + r.value.0, r.value.1))
  }

  /** A character that stands for itself outside quotes. */
  predicate Inert(c: char) {
    IsNameChar(c) || c == '/' || c == '.' || c == '-' || c == ':' || c == '+' || c == ',' || c == '@' || c == '%'
  }

  /** One word of a POSIX shell, up to a newline or the end: single quotes preserve every
      character between them, a backslash outside them the one after it. */
  function ReadWord(s: string, quoted: bool): Read
    decreases |s|
  {
    if s == "" then (if quoted then None else Some(("", "")))
    else if quoted then
      (if s[0] == '\'' then ReadWord(s[1..], false) else Prepend(s[0], ReadWord(s[1..], true)))
    else if s[0] == '\n' then Some(("", s))
    else if s[0] == '\'' then ReadWord(s[1..], true)
    else if s[0] == '\\' then
      (if |s| == 1 then None
       else if s[1] == '\n' then ReadWord(s[2..], false)
       else Prepend(s[1], ReadWord(s[2..], false)))
    else if Inert(s[0]) then Prepend(s[0], ReadWord(s[1..], false))
    else None
  }

  /** A PowerShell verbatim string after its opening quote: two quotes in a row stand for one,
      any one alone ends it. */
  function ReadVerbatim(s: string): Read
    decreases |s|
  {
    if s == "" then None
    else if !IsQuote(s[0]) then Prepend(s[0], ReadVerbatim(s[1..]))
    else if |s| > 1 && IsQuote(s[1]) then Prepend(s[1], ReadVerbatim(s[2..]))
    else Some(("", s[1..]))
  }

  /** A value that is a verbatim string from its first character on. */
  function ReadLiteral(s: string): Read {
    if s != "" && IsQuote(s[0]) then ReadVerbatim(s[1..]) else None
  }

  /** The longest run of name characters. */
  function NameLength(s: string): (n: nat)
    ensures n <= |s|
  {
    if s == "" || !IsNameChar(s[0]) then 0 else 1 + NameLength(s[1..])
  }

  function ReadName(s: string): Read {
    var n := NameLength(s);
    if IsName(s[..n]) then Some((s[..n], s[n..])) else None
  }

  /** A name, its value, and what is left. */
  type ReadPair = Option<(string, string, string)>

  /** An assignment from its name on, up to and including the newline. */
  function PosixBody(s: string): ReadPair {
    match ReadName(s)
    case None => None
    case Some((name, rest)) =>
      if !StartsWith(rest, "=") then None
      else
        match ReadWord(rest[1..], false)
        case None => None
        case Some((value, after)) =>
          if StartsWith(after, "\n") then Some((name, value, after[1..])) else None
  }

  function PowerShellBody(s: string): ReadPair {
    match ReadName(s)
    case None => None
    case Some((name, rest)) =>
      if !StartsWith(rest, " = ") then None
      else
        match ReadLiteral(rest[3..])
        case None => None
        case Some((value, after)) =>
          if StartsWith(after, "\n") then Some((name, value, after[1..])) else None
  }

  /** One line and what is left after it. */
  function ReadPosixLine(s: string): Option<(Assignment, string)> {
    if StartsWith(s, "export ") then
      match PosixBody(s[7..])
      case None => None
      case Some((name, value, rest)) => Some((Environment(name, value), rest))
    else
      match PosixBody(s)
      case None => None
      case Some((name, value, rest)) => Some((Variable(name, value), rest))
  }

  function ReadPowerShellLine(s: string): Option<(Assignment, string)> {
    if StartsWith(s, "$env:") then
      match PowerShellBody(s[5..])
      case None => None
      case Some((name, value, rest)) => Some((Environment(name, value), rest))
    else if StartsWith(s, "$") then
      match PowerShellBody(s[1..])
      case None => None
      case Some((name, value, rest)) => Some((Variable(name, value), rest))
    else None
  }

  /** A whole script, line by line. A reader that makes no progress reads nothing. */
  function ReadPosix(s: string): Option<seq<Assignment>>
    decreases |s|
  {
    if s == "" then Some([])
    else
      match ReadPosixLine(s)
      case None => None
      case Some((first, rest)) =>
        if |rest| >= |s| then None
        else
          match ReadPosix(rest)
          case None => None
          case Some(more) => Some([first] + more)
  }

  function ReadPowerShell(s: string): Option<seq<Assignment>>
    decreases |s|
  {
    if s == "" then Some([])
    else
      match ReadPowerShellLine(s)
      case None => None
      case Some((first, rest)) =>
        if |rest| >= |s| then None
        else
          match ReadPowerShell(rest)
          case None => None
          case Some(more) => Some([first] + more)
  }

  // ------------------------------------------------------------------- round trips

  lemma ApostropheReadsBack(tail: string)
    ensures ReadWord(['\'', '\\', '\'', '\''] + tail, true) == Prepend('\'', ReadWord(tail, true))
  {
    var s := ['\'', '\\', '\'', '\''] + tail;
    var t := ['\\', '\'', '\''] + tail;
    var u := ['\''] + tail;
    assert s[1..] == t;
    assert t[2..] == u;
    assert u[1..] == tail;
    assert ReadWord(s, true) == ReadWord(t, false);
    assert ReadWord(t, false) == Prepend('\'', ReadWord(u, false));
    assert ReadWord(u, false) == ReadWord(tail, true);
  }

  lemma Regroup4(a: string, b: string, c: string, d: string)
    ensures (a + b) + c + d == a + (b + c + d)
  {
    assert (a + b) + c == a + (b + c);
  }

  lemma {:induction false} EscapedReadsBack(value: string, rest: string)
    requires StartsWith(rest, "\n")
    ensures ReadWord(Escaped(value) + "'" + rest, true) == Some((value, rest))
  {
    if value == "" {
      assert "" + "'" + rest == "'" + rest;
      assert ("'" + rest)[1..] == rest;
    } else {
      var more := Escaped(value[1..]);
      var tail := more + "'" + rest;
      EscapedReadsBack(value[1..], rest);
      assert [value[0]] + value[1..] == value;
      if value[0] == '\'' {
        ApostropheReadsBack(tail);
        Regroup4(['\'', '\\', '\'', '\''], more, "'", rest);
      } else {
        Regroup4([value[0]], more, "'", rest);
        assert ([value[0]] + tail)[1..] == tail;
      }
    }
  }

  /** A literal stands for its value and ends where it ends. */
  lemma QuoteReadsBack(value: string, rest: string)
    requires StartsWith(rest, "\n")
    ensures ReadWord(Quote(value) + rest, false) == Some((value, rest))
  {
    EscapedReadsBack(value, rest);
    var inner := Escaped(value) + "'" + rest;
    assert Quote(value) + rest == "'" + inner;
    assert ("'" + inner)[1..] == inner;
  }

  function DoubledChar(c: char): string {
    if IsQuote(c) then [c, c] else [c]
  }

  lemma DoubledLast(s: string)
    requires s != ""
    ensures Doubled(s) == Doubled(s[..|s| - 1]) + DoubledChar(s[|s| - 1])
  {
  }

  lemma {:induction false} DoubledFront(s: string)
    requires s != ""
    ensures Doubled(s) == DoubledChar(s[0]) + Doubled(s[1..])
    decreases |s|
  {
    if |s| == 1 {
      assert s[..0] == "" && s[1..] == "";
    } else {
      var front, rest := s[..|s| - 1], s[1..];
      DoubledFront(front);
      assert front[1..] == rest[..|rest| - 1] && rest[|rest| - 1] == s[|s| - 1];
      DoubledLast(s);
      DoubledLast(rest);
      hide Doubled, DoubledChar;
      var last := DoubledChar(s[|s| - 1]);
      assert DoubledChar(s[0]) + Doubled(front[1..]) + last == DoubledChar(s[0]) + (Doubled(front[1..]) + last);
    }
  }

  lemma {:induction false} DoubledReadsBack(value: string, rest: string)
    requires StartsWith(rest, "\n")
    ensures ReadVerbatim(Doubled(value) + "'" + rest) == Some((value, rest))
  {
    if value == "" {
      assert "" + "'" + rest == "'" + rest;
      assert ("'" + rest)[1..] == rest;
    } else {
      var tail := Doubled(value[1..]) + "'" + rest;
      DoubledReadsBack(value[1..], rest);
      DoubledFront(value);
      assert [value[0]] + value[1..] == value;
      var s := Doubled(value) + "'" + rest;
      assert s == DoubledChar(value[0]) + tail;
      if IsQuote(value[0]) {
        assert s[2..] == tail;
      } else {
        assert s[1..] == tail;
      }
    }
  }

  lemma {:induction false} NameReadsBack(name: string, rest: string)
    requires AllNameChars(name) && rest != "" && !IsNameChar(rest[0])
    ensures NameLength(name + rest) == |name|
  {
    if name == "" {
      assert name + rest == rest;
    } else {
      assert (name + rest)[1..] == name[1..] + rest;
      NameReadsBack(name[1..], rest);
    }
  }

  lemma NameIsRead(name: string, rest: string)
    requires IsName(name) && rest != "" && !IsNameChar(rest[0])
    ensures ReadName(name + rest) == Some((name, rest))
  {
    NameReadsBack(name, rest);
  }

  /** The same of a PowerShell literal. */
  lemma VerbatimReadsBack(value: string, rest: string)
    requires StartsWith(rest, "\n")
    ensures ReadLiteral(PowerShellQuoted(value) + rest) == Some((value, rest))
  {
    DoubledReadsBack(value, rest);
    var inner := Doubled(value) + "'" + rest;
    assert PowerShellQuoted(value) + rest == "'" + inner;
    assert ("'" + inner)[1..] == inner;
  }

  lemma Regroup(a: string, b: string, c: string, d: string, rest: string)
    ensures (a + (b + (c + d))) + rest == a + (b + (c + (d + rest)))
    ensures (a + b) + rest == a + (b + rest)
  {
    assert (c + d) + rest == c + (d + rest);
    assert (b + (c + d)) + rest == b + (c + (d + rest));
  }

  lemma PrefixStrips(before: string, body: string)
    ensures StartsWith(before + body, before) && (before + body)[|before|..] == body
  {
    assert (before + body)[..|before|] == before;
  }

  lemma PosixBodyReadsBack(name: string, value: string, rest: string)
    requires IsName(name)
    ensures PosixBody(PosixAssign(name, value) + rest) == Some((name, value, rest))
  {
    var end := "\n" + rest;
    var tail := "=" + (Quote(value) + end);
    Regroup(name, "=", Quote(value), "\n", rest);
    NameIsRead(name, tail);
    PrefixStrips("=", Quote(value) + end);
    PrefixStrips("\n", rest);
    QuoteReadsBack(value, end);
  }

  lemma PowerShellBodyReadsBack(name: string, value: string, rest: string)
    requires IsName(name)
    ensures PowerShellBody(PowerShellAssign(name, value) + rest) == Some((name, value, rest))
  {
    var end := "\n" + rest;
    var tail := " = " + (PowerShellQuoted(value) + end);
    Regroup(name, " = ", PowerShellQuoted(value), "\n", rest);
    NameIsRead(name, tail);
    PrefixStrips(" = ", PowerShellQuoted(value) + end);
    PrefixStrips("\n", rest);
    VerbatimReadsBack(value, end);
  }

  lemma PrefixAt(s: string, prefix: string, i: nat)
    requires i < |prefix|
    ensures StartsWith(s, prefix) ==> i < |s| && s[i] == prefix[i]
  {
    assert StartsWith(s, prefix) ==> s[i] == s[..|prefix|][i];
  }

  /** What opens with a name never opens with `export` and a space: no name holds a space, and
      what follows one here is an equals sign. */
  lemma NameIsNoExport(name: string, rest: string)
    requires AllNameChars(name) && rest != "" && !IsNameChar(rest[0]) && rest[0] != ' '
    ensures !StartsWith(name + rest, "export ")
  {
    PrefixAt(name + rest, "export ", 6);
    if |name| < 6 {
      PrefixAt(name + rest, "export ", |name|);
    }
  }

  /** A PowerShell variable is never taken for one of the environment: its name is followed by
      a space, never by a colon. */
  lemma NameIsNoEnv(name: string, rest: string)
    requires AllNameChars(name) && rest != "" && rest[0] == ' '
    ensures !StartsWith("$" + (name + rest), "$env:")
  {
    PrefixAt("$" + (name + rest), "$env:", 4);
    if |name| < 3 {
      PrefixAt("$" + (name + rest), "$env:", |name| + 1);
    }
  }

  lemma PosixLineReadsBack(a: Assignment, rest: string)
    requires IsName(a.name)
    ensures ReadPosixLine(PosixLine(a) + rest) == Some((a, rest))
  {
    var body := PosixAssign(a.name, a.value);
    PosixBodyReadsBack(a.name, a.value, rest);
    if a.Variable? {
      Regroup(a.name, "=", Quote(a.value), "\n", rest);
      NameIsNoExport(a.name, "=" + (Quote(a.value) + ("\n" + rest)));
    } else {
      Regroup("export ", body, "", "", rest);
      PrefixStrips("export ", body + rest);
    }
  }

  lemma PowerShellLineReadsBack(a: Assignment, rest: string)
    requires IsName(a.name)
    ensures ReadPowerShellLine(PowerShellLine(a) + rest) == Some((a, rest))
  {
    var body := PowerShellAssign(a.name, a.value);
    PowerShellBodyReadsBack(a.name, a.value, rest);
    if a.Variable? {
      Regroup(a.name, " = ", PowerShellQuoted(a.value), "\n", rest);
      Regroup("$", body, "", "", rest);
      NameIsNoEnv(a.name, " = " + (PowerShellQuoted(a.value) + ("\n" + rest)));
      PrefixStrips("$", body + rest);
    } else {
      Regroup("$env:", body, "", "", rest);
      PrefixStrips("$env:", body + rest);
    }
  }

  predicate AllNamed(items: seq<Assignment>) {
    forall a <- items :: IsName(a.name)
  }

  /** A POSIX shell given every line printed makes exactly those assignments, in that order,
      whatever characters the values hold. */
  lemma {:induction false} PosixScriptReadsBack(items: seq<Assignment>)
    requires AllNamed(items)
    ensures ReadPosix(PosixScript(items)) == Some(items)
  {
    if items != [] {
      PosixScriptReadsBack(items[1..]);
      PosixLineReadsBack(items[0], PosixScript(items[1..]));
      assert |PosixLine(items[0])| > 0;
      assert [items[0]] + items[1..] == items;
    }
  }

  /** The same of PowerShell, curly quotes in a value included. */
  lemma {:induction false} PowerShellScriptReadsBack(items: seq<Assignment>)
    requires AllNamed(items)
    ensures ReadPowerShell(PowerShellScript(items)) == Some(items)
  {
    if items != [] {
      PowerShellScriptReadsBack(items[1..]);
      PowerShellLineReadsBack(items[0], PowerShellScript(items[1..]));
      assert |PowerShellLine(items[0])| > 0;
      assert [items[0]] + items[1..] == items;
    }
  }
}
