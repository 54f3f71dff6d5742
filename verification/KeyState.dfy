/** What is written down of each key added to the agent: one small file per key, named after
    the key, holding when it was added, for how many seconds, and where the key is. */
module KeyState {
  import opened Text
  import opened Wrappers

  const SECOND := 1_000_000_000

  /** A signed 64-bit value, as Go's arithmetic leaves it. */
  function Wrap64(n: int): int {
    (n + 0x8000_0000_0000_0000) % 0x1_0000_0000_0000_0000 - 0x8000_0000_0000_0000
  }

  predicate Is64(n: int) {
    -0x8000_0000_0000_0000 <= n < 0x8000_0000_0000_0000
  }

  /** Go's division, which truncates towards zero. */
  function Quotient(a: int, b: int): int
    requires b > 0
  {
    if a >= 0 then a / b else -(-a / b)
  }

  // ---------------------------------------------------------------------- decimal text

  function Digit(d: int): char
    requires 0 <= d < 10
  {
    "0123456789"[d]
  }

  function Digits(n: nat): (s: string)
    ensures s != ""
  {
    if n < 10 then [Digit(n)] else Digits(n / 10) + [Digit(n % 10)]
  }

  function FormatInt(n: int): string {
    if n < 0 then "-" + Digits(-n) else Digits(n)
  }

  predicate IsDigit(c: char) {
    '0' <= c <= '9'
  }

  function DigitValue(c: char): int {
    c as int - '0' as int
  }

  function ParseDigits(s: string): Option<int> {
    if s == "" || !IsDigit(s[|s| - 1]) then None
    else
      var d := DigitValue(s[|s| - 1]);
      if |s| == 1 then Some(d)
      else
        match ParseDigits(s[..|s| - 1])
        case None => None
        case Some(n) => Some(10 * n + d)
  }

  /** strconv.ParseInt(s, 10, 64): an optional sign, digits, and a value that fits. */
  function ParseInt(s: string): Option<int> {
    var signed := s != "" && (s[0] == '-' || s[0] == '+');
    match ParseDigits(if signed then s[1..] else s)
    case None => None
    case Some(n) =>
      var value := if signed && s[0] == '-' then -n else n;
      if Is64(value) then Some(value) else None
  }

  lemma DigitReadsBack(d: int)
    requires 0 <= d < 10
    ensures IsDigit(Digit(d)) && DigitValue(Digit(d)) == d
  {}

  predicate AllDigits(s: string) {
    forall i :: 0 <= i < |s| ==> IsDigit(s[i])
  }

  lemma {:induction false} DigitsReadBack(n: nat)
    ensures ParseDigits(Digits(n)) == Some(n) && AllDigits(Digits(n))
  {
    DigitReadsBack(n % 10);
    if n >= 10 {
      var front := Digits(n / 10);
      DigitsReadBack(n / 10);
      assert Digits(n)[..|front|] == front;
    }
  }

  lemma IntReadsBack(n: int)
    requires Is64(n)
    ensures ParseInt(FormatInt(n)) == Some(n)
    ensures FormatInt(n) != "" && forall i :: 0 <= i < |FormatInt(n)| ==> !IsSpace(FormatInt(n)[i])
  {
    DigitsReadBack(if n < 0 then -n else n);
    if n < 0 {
      assert FormatInt(n)[1..] == Digits(-n);
    }
  }

  // ------------------------------------------------------------------------- one record

  /** Times and durations are in nanoseconds. */
  datatype Record = Record(addedAt: int, lifetime: int, keyFile: string)

  function ExpiresAt(r: Record): Option<int> {
    if r.lifetime <= 0 then None else Some(r.addedAt + r.lifetime)
  }

  /** The text a time is written as, and how such text is read. */
  datatype TimeText = TimeText(format: int -> string, parse: string -> Option<int>)

  function WholeSecond(t: int): int {
    t - t % SECOND
  }

  /** The time `t` has a text that is one word and reads as the second `t` falls in. */
  predicate Writes(text: TimeText, t: int) {
    && text.parse(text.format(t)) == Some(WholeSecond(t))
    && text.format(t) != ""
    && forall i :: 0 <= i < |text.format(t)| ==> !IsSpace(text.format(t)[i])
  }

  function Body(text: TimeText, now: int, lifetime: int, keyFile: string): string {
    text.format(now) + "\n" + FormatInt(Quotient(lifetime, SECOND)) + "\n" + keyFile + "\n"
  }

  /** strings.SplitN at newlines. */
  function SplitN(s: string, n: nat): (parts: seq<string>)
    requires n >= 1
    ensures 1 <= |parts| <= n
  {
    if n == 1 || '\n' !in s then [s] else [UpTo(s)] + SplitN(s[|UpTo(s)| + 1..], n - 1)
  }

  /** What stands before the first newline. */
  function UpTo(s: string): (front: string)
    requires '\n' in s
    ensures |front| < |s| && front == s[..|front|]
  {
    if s[0] == '\n' then "" else [s[0]] + UpTo(s[1..])
  }

  function Parsed(text: TimeText, data: string): Option<Record> {
    var lines := SplitN(TrimSpace(data), 3);
    if |lines| < 2 then None
    else
      match text.parse(TrimSpace(lines[0]))
      case None => None
      case Some(addedAt) =>
        match ParseInt(TrimSpace(lines[1]))
        case None => None
        case Some(secs) =>
          Some(Record(addedAt, Wrap64(secs * SECOND), if |lines| == 3 then TrimSpace(lines[2]) else ""))
  }

  // -------------------------------------------------------------- reading back what was written

  predicate Spaceless(s: string) {
    s != "" && forall i :: 0 <= i < |s| ==> !IsSpace(s[i])
  }

  lemma {:induction false} TrimTail(s: string, c: char)
    requires IsSpace(c)
    ensures TrimSpace(s + [c]) == TrimSpace(s)
  {
    if s == "" {
      assert TrimSpace(([c])[1..]) == "";
    } else if IsSpace(s[0]) {
      TrimTail(s[1..], c);
      assert (s + [c])[1..] == s[1..] + [c];
    } else {
      assert (s + [c])[..|s|] == s;
    }
  }

  /** Trimming text that opens with something else than white space touches only its end. */
  lemma {:induction false} TrimFront(front: string, s: string)
    requires front != "" && !IsSpace(front[0]) && !IsSpace(front[|front| - 1])
    ensures TrimSpace(front + s) == front + TrimEnd(s)
    decreases |s|
  {
    if s == "" {
      assert front + s == front;
    } else if IsSpace(s[|s| - 1]) {
      assert front + s == (front + s[..|s| - 1]) + [s[|s| - 1]];
      TrimTail(front + s[..|s| - 1], s[|s| - 1]);
      TrimFront(front, s[..|s| - 1]);
    } else {
      assert (front + s)[0] == front[0];
    }
  }

  function TrimEnd(s: string): string {
    if s != "" && IsSpace(s[|s| - 1]) then TrimEnd(s[..|s| - 1]) else s
  }

  lemma {:induction false} TrimEndThenTrim(s: string)
    ensures TrimSpace(TrimEnd(s)) == TrimSpace(s)
  {
    if s != "" && IsSpace(s[|s| - 1]) {
      TrimEndThenTrim(s[..|s| - 1]);
      assert s == s[..|s| - 1] + [s[|s| - 1]];
      TrimTail(s[..|s| - 1], s[|s| - 1]);
    }
  }

  lemma {:induction false} UpToFirst(front: string, rest: string)
    requires '\n' !in front
    ensures '\n' in front + "\n" + rest && UpTo(front + "\n" + rest) == front
  {
    var s := front + "\n" + rest;
    assert s[|front|] == '\n';
    if front != "" {
      assert s[1..] == front[1..] + "\n" + rest;
      UpToFirst(front[1..], rest);
    }
  }

  lemma SplitNCut(front: string, rest: string, n: nat)
    requires '\n' !in front && n >= 2
    ensures SplitN(front + "\n" + rest, n) == [front] + SplitN(rest, n - 1)
  {
    UpToFirst(front, rest);
    assert (front + "\n" + rest)[|front| + 1..] == rest;
  }

  lemma SpacelessIsTrimmed(s: string)
    requires Spaceless(s)
    ensures TrimSpace(s) == s && '\n' !in s
  {}

  /** Two words on lines of their own and whatever follows them: the lines a record is read from. */
  lemma LinesOfBody(a: string, b: string, c: string)
    requires Spaceless(a) && Spaceless(b)
    ensures var lines := SplitN(TrimSpace(a + "\n" + b + "\n" + c + "\n"), 3);
            && |lines| >= 2 && lines[0] == a && lines[1] == b
            && TrimSpace(c) == if |lines| == 3 then TrimSpace(lines[2]) else ""
  {
    hide TrimSpace, TrimEnd;
    var front := a + "\n" + b;
    var tail := TrimEnd("\n" + c + "\n");
    Regroup(a, b, c, "\n");
    assert front[|front| - 1] == b[|b| - 1];
    TrimFront(front, "\n" + c + "\n");
    SpacelessIsTrimmed(a);
    SpacelessIsTrimmed(b);
    TailTrims(c);
    if tail == "" {
      assert front + tail == front;
      SplitNCut(a, b, 3);
    } else {
      assert tail == "\n" + tail[1..];
      Regroup(a, b, tail[1..], "\n");
      SplitNCut(a, b + "\n" + tail[1..], 3);
      SplitNCut(b, tail[1..], 2);
    }
  }

  lemma Regroup(a: string, b: string, c: string, nl: string)
    ensures a + nl + b + nl + c + nl == (a + nl + b) + (nl + c + nl)
    ensures (a + nl + b) + (nl + c) == a + nl + (b + nl + c)
  {
    assert (a + nl + b) + nl + c == (a + nl + b) + (nl + c);
    assert (a + nl) + b + (nl + c) == (a + nl) + (b + (nl + c));
    assert b + nl + c == b + (nl + c);
  }

  lemma TailTrims(c: string)
    ensures var end := TrimEnd("\n" + c + "\n");
            if end == "" then TrimSpace(c) == "" else end[0] == '\n' && TrimSpace(end[1..]) == TrimSpace(c)
  {
    var s := "\n" + c;
    assert (s + "\n")[..|s|] == s;
    assert TrimEnd(s + "\n") == TrimEnd(s);
    TrimEndKeepsFront('\n', c);
    TrimEndThenTrim(c);
  }

  lemma {:induction false} TrimEndKeepsFront(first: char, c: string)
    ensures TrimEnd([first] + c) == if TrimEnd(c) == "" then TrimEnd([first]) else [first] + TrimEnd(c)
  {
    if c == "" {
      assert [first] + c == [first];
    } else if IsSpace(c[|c| - 1]) {
      assert ([first] + c)[..|c|] == [first] + c[..|c| - 1];
      TrimEndKeepsFront(first, c[..|c| - 1]);
    }
  }

  lemma WholeSecondsFit(lifetime: int)
    requires Is64(lifetime)
    ensures var secs := Quotient(lifetime, SECOND);
            Is64(secs) && Wrap64(secs * SECOND) == secs * SECOND
  {}

  /** Whatever was written reads back as the second it was written in, the whole seconds of the
      lifetime, and the path without the white space around it: as the path itself exactly when
      it has none. */
  lemma BodyReadsBack(text: TimeText, now: int, lifetime: int, keyFile: string)
    requires Writes(text, now) && Is64(lifetime)
    ensures Parsed(text, Body(text, now, lifetime, keyFile))
         == Some(Record(WholeSecond(now), Quotient(lifetime, SECOND) * SECOND, TrimSpace(keyFile)))
  {
    var secs := Quotient(lifetime, SECOND);
    WholeSecondsFit(lifetime);
    IntReadsBack(secs);
    LinesOfBody(text.format(now), FormatInt(secs), keyFile);
    SpacelessIsTrimmed(text.format(now));
    SpacelessIsTrimmed(FormatInt(secs));
  }

  // ---------------------------------------------------------- agreeing with ssh-add

  function SshAddArgs(lifetime: int, keyFile: string): seq<string> {
    var secs := Quotient(lifetime, SECOND);
    if secs > 0 then ["-t", FormatInt(secs), keyFile] else [keyFile]
  }

  /** The record says a key expires exactly when ssh-add was told so, that many seconds after
      the second it was added in. */
  lemma RecordAgreesWithAgent(text: TimeText, now: int, lifetime: int, keyFile: string)
    requires Writes(text, now) && Is64(lifetime)
    ensures var read := Parsed(text, Body(text, now, lifetime, keyFile));
            var args := SshAddArgs(lifetime, keyFile);
            read.Some? && var r := read.value;
            && (ExpiresAt(r).Some? <==> |args| == 3)
            && (ExpiresAt(r).Some? ==>
                  && args[0] == "-t" && ParseInt(args[1]).Some?
                  && ExpiresAt(r).value == WholeSecond(now) + ParseInt(args[1]).value * SECOND)
            && (|args| == 1 || |args| == 3) && args[|args| - 1] == keyFile
  {
    BodyReadsBack(text, now, lifetime, keyFile);
    WholeSecondsFit(lifetime);
    IntReadsBack(Quotient(lifetime, SECOND));
  }

  /** When that is: never for less than a second, and otherwise the whole seconds of the lifetime
      after the whole second it was added in. */
  lemma ExpiresAfterWholeSeconds(text: TimeText, now: int, lifetime: int, keyFile: string)
    requires Writes(text, now) && Is64(lifetime)
    ensures var read := Parsed(text, Body(text, now, lifetime, keyFile));
            read.Some? && ExpiresAt(read.value) ==
            if lifetime < 1_000_000_000 then None
            else Some(now - now % 1_000_000_000 + lifetime - lifetime % 1_000_000_000)
  {
    BodyReadsBack(text, now, lifetime, keyFile);
    WholeSecondsOf(lifetime);
  }

  lemma WholeSecondsOf(n: int)
    ensures n >= SECOND ==> Quotient(n, SECOND) * SECOND == n - n % SECOND && Quotient(n, SECOND) > 0
    ensures n < SECOND ==> Quotient(n, SECOND) <= 0
  {
  }

  // -------------------------------------------------------------------------- the store

  function TrimSlashes(s: string): string {
    if s != "" && s[|s| - 1] == '/' then TrimSlashes(s[..|s| - 1]) else s
  }

  function AfterSlash(s: string): string {
    if s == "" || s[|s| - 1] == '/' then "" else AfterSlash(s[..|s| - 1]) + [s[|s| - 1]]
  }

  /** filepath.Base. */
  function Base(path: string): string {
    if path == "" then "."
    else if TrimSlashes(path) == "" then "/"
    else AfterSlash(TrimSlashes(path))
  }

  /** The file a key's record is kept in, if it can have one. */
  function RecordName(key: string): Option<string> {
    var name := Base(key);
    if name == "." || name == ".." || name == "/" || Blank(name) then None else Some(name)
  }

  lemma {:induction false} AfterSlashHasNone(s: string)
    ensures '/' !in AfterSlash(s)
  {
    if s != "" && s[|s| - 1] != '/' {
      AfterSlashHasNone(s[..|s| - 1]);
    }
  }

  lemma {:induction false} PlainIsItsOwnBase(s: string)
    requires '/' !in s
    ensures TrimSlashes(s) == s && AfterSlash(s) == s
  {
    if s != "" {
      PlainIsItsOwnBase(s[..|s| - 1]);
      assert s[..|s| - 1] + [s[|s| - 1]] == s;
    }
  }

  /** A file's own name is what stands after its directory, whatever slashes follow. */
  lemma BaseOfJoined(dir: string, name: string, slashes: nat)
    requires name != "" && '/' !in name
    ensures Base(dir + "/" + name + Slashes(slashes)) == name
    ensures Base(name + Slashes(slashes)) == name
  {
    hide TrimSlashes, AfterSlash, Slashes;
    AfterLastSlash(dir + "/", name);
    PlainIsItsOwnBase(name);
    SlashesGo(dir + "/" + name, slashes);
    SlashesGo(name, slashes);
  }

  lemma {:induction false} SlashesGo(s: string, n: nat)
    ensures TrimSlashes(s + Slashes(n)) == TrimSlashes(s)
  {
    if n == 0 {
      assert s + "" == s;
    } else {
      var t := s + Slashes(n - 1);
      assert s + Slashes(n) == t + "/" && (t + "/")[..|t|] == t;
      SlashesGo(s, n - 1);
    }
  }

  function Slashes(n: nat): string {
    if n == 0 then "" else Slashes(n - 1) + "/"
  }

  lemma {:induction false} AfterLastSlash(front: string, name: string)
    requires front != "" && front[|front| - 1] == '/' && name != "" && '/' !in name
    ensures AfterSlash(front + name) == name && TrimSlashes(front + name) == front + name
    decreases |name|
  {
    var s, n := front + name, |name| - 1;
    assert s[..|s| - 1] == front + name[..n] && name[..n] + [name[n]] == name;
    if n == 0 {
      assert front + name[..n] == front;
    } else {
      AfterLastSlash(front, name[..n]);
    }
  }

  /** A record is found under its own file's name as under the key's path, and a path never
      leads out of the store. */
  lemma NameNamesItself(key: string)
    requires RecordName(key).Some?
    ensures '/' !in RecordName(key).value && RecordName(RecordName(key).value) == RecordName(key)
  {
    AfterSlashHasNone(TrimSlashes(key));
    PlainIsItsOwnBase(Base(key));
  }

  /** A directory of records, or none at all. */
  class Store {
    const enabled: bool
    var files: map<string, string>

    constructor (enabled: bool)
      ensures this.enabled == enabled && files == map[]
    {
      this.enabled := enabled;
      files := map[];
    }

    function Path(key: string): Option<string> {
      if enabled then RecordName(key) else None
    }

    function Load(text: TimeText, key: string): Option<Record>
      reads this
    {
      match Path(key)
      case None => None
      case Some(name) => if name in files then Parsed(text, files[name]) else None
    }

    /** Whether it works is whether the directory and the file can be written. */
    method Save(text: TimeText, keyFile: string, lifetime: int, now: int, works: bool) returns (ok: bool)
      requires Writes(text, now) && Is64(lifetime)
      modifies this
      ensures ok == (works || Path(keyFile).None?)
      ensures works && Path(keyFile).Some? ==>
                && files == old(files)[Path(keyFile).value := Body(text, now, lifetime, keyFile)]
                && Load(text, keyFile)
                   == Some(Record(WholeSecond(now), Quotient(lifetime, SECOND) * SECOND, TrimSpace(keyFile)))
      ensures !works || Path(keyFile).None? ==> files == old(files)
      ensures forall other :: Path(other) != Path(keyFile) ==> Load(text, other) == old(Load(text, other))
    {
      var name := Path(keyFile);
      if name.None? {
        return true;
      }
      if !works {
        return false;
      }
      BodyReadsBack(text, now, lifetime, keyFile);
      files := files[name.value := Body(text, now, lifetime, keyFile)];
      return true;
    }

    method Clear(key: string)
      modifies this
      ensures files == if Path(key).Some? then old(files) - {Path(key).value} else old(files)
    {
      var name := Path(key);
      if name.Some? {
        files := files - {name.value};
      }
    }

    /** Every record that can be read, in the order the directory is listed. */
    method Records(text: TimeText, listing: seq<string>) returns (recs: seq<Record>)
      ensures recs == if enabled then RecordsOf(text, listing) else []
    {
      recs := [];
      if !enabled {
        return;
      }
      for i := 0 to |listing|
        invariant recs == RecordsOf(text, listing[..i])
      {
        assert listing[..i + 1][..i] == listing[..i];
        var rec := Load(text, listing[i]);
        if rec.Some? {
          recs := recs + [rec.value];
        }
      }
      assert listing[..|listing|] == listing;
    }

    function RecordsOf(text: TimeText, listing: seq<string>): seq<Record>
      reads this
    {
      if listing == [] then []
      else
        var last := Load(text, listing[|listing| - 1]);
        RecordsOf(text, listing[..|listing| - 1]) + (if last.Some? then [last.value] else [])
    }
  }
}
