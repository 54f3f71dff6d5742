/** A string written the way Go quotes it and read the way TOML reads a basic string. The two
    agree on every character but a few controls. */
module TomlText {
  import opened Wrappers

  /** Whether the reader knows the escapes TOML 1.1 adds, and which characters are printed as
      they are. No control character is. */
  datatype Rules = Rules(hexEscapes: bool, printable: char -> bool)

  predicate IsControl(c: char) {
    c < ' ' || c == '\U{7F}'
  }

  ghost predicate PrintsNoControl(r: Rules) {
    forall c :: IsControl(c) ==> !r.printable(c)
  }

  // ----------------------------------------------------------------------- hexadecimal

  function HexDigit(n: int): char
    requires 0 <= n < 16
  {
    "0123456789abcdef"[n]
  }

  function DigitValue(c: char): Option<int> {
    if '0' <= c <= '9' then Some(c as int - '0' as int)
    else if 'a' <= c <= 'f' then Some(c as int - 'a' as int + 10)
    else if 'A' <= c <= 'F' then Some(c as int - 'A' as int + 10)
    else None
  }

  /** `n` in `width` digits. */
  function Hex(n: nat, width: nat): (s: string)
    ensures |s| == width
  {
    if width == 0 then "" else Hex(n / 16, width - 1) + [HexDigit(n % 16)]
  }

  function HexValue(s: string): Option<nat> {
    if s == "" then Some(0)
    else
      match (HexValue(s[..|s| - 1]), DigitValue(s[|s| - 1]))
      case (Some(n), Some(d)) => if d >= 0 then Some(16 * n + d) else None
      case _ => None
  }

  function Range(width: nat): nat {
    if width == 0 then 1 else 16 * Range(width - 1)
  }

  lemma DigitReadsBack(n: int)
    requires 0 <= n < 16
    ensures DigitValue(HexDigit(n)) == Some(n)
  {}

  lemma {:induction false} HexReadsBack(n: nat, width: nat)
    requires n < Range(width)
    ensures HexValue(Hex(n, width)) == Some(n)
  {
    if width > 0 {
      var front := Hex(n / 16, width - 1);
      HexReadsBack(n / 16, width - 1);
      DigitReadsBack(n % 16);
      assert Hex(n, width)[..width - 1] == front;
    }
  }

  // --------------------------------------------------------------------------- writing

  /** What strconv.Quote makes of one character. */
  function Escaped(r: Rules, c: char): string {
    if c == '"' || c == '\\' then ['\\', c]
    else if r.printable(c) then [c]
    else if Short(c).Some? then ['\\', Short(c).value]
    else if IsControl(c) then ['\\', 'x'] + Hex(c as int, 2)
    else if c as int < 0x10000 then ['\\', 'u'] + Hex(c as int, 4)
    else ['\\', 'U'] + Hex(c as int, 8)
  }

  /** The letter Go escapes a character by. */
  function Short(c: char): Option<char> {
    if c == '\U{7}' then Some('a')
    else if c == '\U{8}' then Some('b')
    else if c == '\U{C}' then Some('f')
    else if c == '\n' then Some('n')
    else if c == '\r' then Some('r')
    else if c == '\t' then Some('t')
    else if c == '\U{B}' then Some('v')
    else None
  }

  function EscapedAll(r: Rules, s: string): string {
    if s == "" then "" else Escaped(r, s[0]) + EscapedAll(r, s[1..])
  }

  /** strconv.Quote. */
  function Quote(r: Rules, s: string): string {
    ['"'] + EscapedAll(r, s) + ['"']
  }

  // --------------------------------------------------------------------------- reading

  function Prepend(c: char, rest: Option<string>): Option<string> {
    if rest.None? then None else Some([c] + rest.value)
  }

  function Scalar(n: Option<nat>): Option<char> {
    if n.Some? && (n.value < 0xD800 || 0xE000 <= n.value < 0x11_0000) then Some(n.value as char) else None
  }

  /** What a letter after a backslash stands for by itself. */
  function Letter(r: Rules, c: char): Option<char> {
    if c == '"' || c == '\\' then Some(c)
    else if c == 'b' then Some('\U{8}')
    else if c == 'f' then Some('\U{C}')
    else if c == 'n' then Some('\n')
    else if c == 'r' then Some('\r')
    else if c == 't' then Some('\t')
    else if c == 'e' && r.hexEscapes then Some('\U{1B}')
    else None
  }

  /** How many hexadecimal digits a letter after a backslash takes. */
  function Width(r: Rules, c: char): nat {
    if c == 'u' then 4 else if c == 'U' then 8 else if c == 'x' && r.hexEscapes then 2 else 0
  }

  /** A TOML basic string after its opening quote, up to the closing one and no further. */
  function ReadChars(r: Rules, s: string): Option<string>
    decreases |s|
  {
    if s == "" then None
    else if s[0] == '"' then (if |s| == 1 then Some("") else None)
    else if s[0] == '\\' then
      if |s| == 1 then None
      else if Letter(r, s[1]).Some? then Prepend(Letter(r, s[1]).value, ReadChars(r, s[2..]))
      else
        var n := Width(r, s[1]);
        if n == 0 || |s| < 2 + n then None
        else
          var c := Scalar(HexValue(s[2..2 + n]));
          if c.None? then None else Prepend(c.value, ReadChars(r, s[2 + n..]))
    else if IsControl(s[0]) && s[0] != '\t' then None
    else Prepend(s[0], ReadChars(r, s[1..]))
  }

  function ReadBasic(r: Rules, s: string): Option<string> {
    if s != "" && s[0] == '"' then ReadChars(r, s[1..]) else None
  }

  // -------------------------------------------------------------- which strings survive

  /** A character whose escape TOML reads: not the bell and not the vertical tab, and of the
      controls without a letter of their own only where the escapes of TOML 1.1 are known. */
  predicate Survives(r: Rules, c: char) {
    c != '\U{7}' && c != '\U{B}' && (IsControl(c) && Short(c).None? ==> r.hexEscapes)
  }

  predicate AllSurvive(r: Rules, s: string) {
    forall i :: 0 <= i < |s| ==> Survives(r, s[i])
  }

  lemma ShortReadsBack(r: Rules, c: char, rest: string)
    requires Short(c).Some?
    ensures ReadChars(r, ['\\', Short(c).value] + rest) ==
            if Survives(r, c) then Prepend(c, ReadChars(r, rest)) else None
  {
    var s := ['\\', Short(c).value] + rest;
    assert s[2..] == rest;
  }

  lemma DigitsReadBack(r: Rules, c: char, letter: char, rest: string)
    requires Letter(r, letter).None? && letter != '"' && c as int < Range(Width(r, letter))
    ensures Width(r, letter) > 0 ==>
              ReadChars(r, ['\\', letter] + Hex(c as int, Width(r, letter)) + rest) == Prepend(c, ReadChars(r, rest))
  {
    var n := Width(r, letter);
    var digits := Hex(c as int, n);
    var s := ['\\', letter] + digits + rest;
    HexReadsBack(c as int, n);
    assert s[1] == letter && s[2..2 + n] == digits && s[2 + n..] == rest;
  }

  lemma HexControlReadsBack(r: Rules, c: char, rest: string)
    requires IsControl(c)
    ensures ReadChars(r, ['\\', 'x'] + Hex(c as int, 2) + rest) ==
            if r.hexEscapes then Prepend(c, ReadChars(r, rest)) else None
  {
    assert Range(2) == 256;
    if r.hexEscapes {
      DigitsReadBack(r, c, 'x', rest);
    }
  }

  lemma WideReadsBack(r: Rules, c: char, rest: string)
    ensures c as int < 0x10000 ==>
              ReadChars(r, ['\\', 'u'] + Hex(c as int, 4) + rest) == Prepend(c, ReadChars(r, rest))
    ensures ReadChars(r, ['\\', 'U'] + Hex(c as int, 8) + rest) == Prepend(c, ReadChars(r, rest))
  {
    assert Range(4) == 0x10000 && Range(8) == 0x1_0000_0000 by {
      assert Range(2) == 256;
      assert Range(4) == 16 * 16 * Range(2);
      assert Range(6) == 16 * 16 * Range(4);
      assert Range(8) == 16 * 16 * Range(6);
    }
    if c as int < 0x10000 {
      DigitsReadBack(r, c, 'u', rest);
    }
    DigitsReadBack(r, c, 'U', rest);
  }

  lemma OneReadsBack(r: Rules, c: char, rest: string)
    requires PrintsNoControl(r)
    ensures ReadChars(r, Escaped(r, c) + rest) == if Survives(r, c) then Prepend(c, ReadChars(r, rest)) else None
  {
    hide HexValue, Hex;
    var s := Escaped(r, c) + rest;
    if c == '"' || c == '\\' {
      assert s[1] == c && s[2..] == rest;
    } else if r.printable(c) {
      assert s[0] == c && s[1..] == rest;
    } else if Short(c).Some? {
      ShortReadsBack(r, c, rest);
    } else if IsControl(c) {
      HexControlReadsBack(r, c, rest);
    } else {
      WideReadsBack(r, c, rest);
    }
  }

  lemma {:induction false} CharsReadBack(r: Rules, s: string)
    requires PrintsNoControl(r)
    ensures ReadChars(r, EscapedAll(r, s) + ['"']) == if AllSurvive(r, s) then Some(s) else None
  {
    if s == "" {
      assert EscapedAll(r, s) + ['"'] == ['"'];
    } else {
      hide ReadChars, Escaped;
      var rest := EscapedAll(r, s[1..]) + ['"'];
      CharsReadBack(r, s[1..]);
      OneReadsBack(r, s[0], rest);
      assert EscapedAll(r, s) + ['"'] == Escaped(r, s[0]) + rest;
      assert s == [s[0]] + s[1..];
    }
  }

  /** A quoted string reads back as itself exactly when all its characters do, and as nothing
      at all otherwise. */
  lemma QuoteReadsExactly(r: Rules, s: string)
    requires PrintsNoControl(r)
    ensures ReadBasic(r, Quote(r, s)) == if AllSurvive(r, s) then Some(s) else None
  {
    CharsReadBack(r, s);
    assert Quote(r, s)[1..] == EscapedAll(r, s) + ['"'];
  }

  lemma {:induction false} HexIsOneLine(n: nat, width: nat)
    ensures '\n' !in Hex(n, width)
  {
    if width > 0 {
      HexIsOneLine(n / 16, width - 1);
    }
  }

  lemma EscapedIsOneLine(r: Rules, c: char)
    requires PrintsNoControl(r)
    ensures '\n' !in Escaped(r, c)
  {
    HexIsOneLine(c as int, 2);
    HexIsOneLine(c as int, 4);
    HexIsOneLine(c as int, 8);
  }

  lemma {:induction false} QuotedIsOneLine(r: Rules, s: string)
    requires PrintsNoControl(r)
    ensures '\n' !in EscapedAll(r, s) && '\n' !in Quote(r, s)
  {
    if s != "" {
      EscapedIsOneLine(r, s[0]);
      QuotedIsOneLine(r, s[1..]);
    }
  }
}
