/** Escaping one saved value (host-rs/src/settings.rs:488-566). */
module IniText {
  import opened Basics

  datatype IniError =
    TruncatedEscape | BadHex | BadCharacter | UnsupportedEscape | UnterminatedQuote | UnsupportedVariant

  type Parsed = Result<string, IniError>

  predicate IsHex(c: char) { '0' <= c <= '9' || 'a' <= c <= 'f' || 'A' <= c <= 'F' }

  function Digit(c: char): (n: nat)
    requires IsHex(c)
    ensures n < 16
  {
    if c <= '9' then c as int - '0' as int
    else if c <= 'F' then c as int - 'A' as int + 10
    else c as int - 'a' as int + 10
  }

  function HexRun(s: string): (n: nat)
    ensures n <= |s| && forall i :: 0 <= i < n ==> IsHex(s[i])
    ensures n < |s| ==> !IsHex(s[n])
  {
    if s == "" || !IsHex(s[0]) then 0 else 1 + HexRun(s[1..])
  }

  function HexValue(s: string): nat
    requires forall i :: 0 <= i < |s| ==> IsHex(s[i])
  {
    if s == "" then 0 else 16 * HexValue(s[..|s| - 1]) + Digit(s[|s| - 1])
  }

  /** What a single-letter escape stands for. */
  function Letter(c: char): Option<char> {
    match c
    case 'n' => Some('\n')
    case 'r' => Some('\r')
    case 't' => Some('\t')
    case 'a' => Some(7 as char)
    case 'b' => Some(8 as char)
    case 'f' => Some(12 as char)
    case 'v' => Some(11 as char)
    case '\\' => Some('\\')
    case '"' => Some('"')
    case _ => None
  }

  predicate IsScalar(n: int) { 0 <= n < 0xD800 || 0xE000 <= n < 0x11_0000 }

  /** The character a run of hex digits names. `from_str_radix` refuses an empty run
      and a value beyond 32 bits, `from_u32` surrogates and values beyond Unicode. */
  function FromHex(run: string): Result<char, IniError>
    requires forall i :: 0 <= i < |run| ==> IsHex(run[i])
  {
    if run == "" || HexValue(run) >= U32_LIMIT then Err(BadHex)
    else if !IsScalar(HexValue(run)) then Err(BadCharacter)
    else Ok(HexValue(run) as char)
  }

  function Prepend(c: char, rest: Parsed): Parsed {
    match rest
    case Ok(s) => Ok([c] + s)
    case Err(_) => rest
  }

  /** The characters left after removing quotes and escapes. */
  function Unescape(s: string, quoted: bool): Parsed
    decreases |s|
  {
    if s == "" then if quoted then Err(UnterminatedQuote) else Ok("")
    else if s[0] == '"' then Unescape(s[1..], !quoted)
    else if s[0] != '\\' then Prepend(s[0], Unescape(s[1..], quoted))
    else if |s| == 1 then Err(TruncatedEscape)
    else if Letter(s[1]).Some? then Prepend(Letter(s[1]).value, Unescape(s[2..], quoted))
    else if s[1] == 'x' then
      var run := HexRun(s[2..]);
      match FromHex(s[2..][..run])
      case Ok(c) => Prepend(c, Unescape(s[2 + run..], quoted))
      case Err(e) => Err(e)
    else Err(UnsupportedEscape)
  }

  /** A doubled '@' is a plain one; a single one opens a typed value. */
  function StripAt(body: string): Parsed {
    if |body| > 0 && body[0] == '@' then
      if |body| > 1 && body[1] == '@' then Ok(body[1..]) else Err(UnsupportedVariant)
    else Ok(body)
  }

  function Decode(value: string): Parsed {
    match Unescape(value, false)
    case Ok(body) => StripAt(body)
    case Err(e) => Err(e)
  }

  function Hex(n: nat): (s: string)
    ensures |s| > 0
    ensures forall i :: 0 <= i < |s| ==> IsHex(s[i]) && s[i] >= '0'
  {
    var last := if n % 16 < 10 then (n % 16 + 48) as char else (n % 16 + 87) as char;
    if n < 16 then [last] else Hex(n / 16) + [last]
  }

  /** Whether a character is written as \x: control characters, and hex digits that
      would otherwise run on from an escape just before them. */
  predicate ByNumber(c: char, armed: bool) { c < ' ' || (armed && IsHex(c)) }

  /** One character's escaped form, and whether the next one must not look like a hex digit. */
  function Escaped(c: char, armed: bool): (string, bool) {
    if c == '\\' || c == '"' then (['\\', c], false)
    else if c == '\n' then ("\\n", false)
    else if c == '\r' then ("\\r", false)
    else if ByNumber(c, armed) then ("\\x" + Hex(c as int), true)
    else ([c], false)
  }

  function Escape(s: string, armed: bool): string {
    if s == "" then "" else Escaped(s[0], armed).0 + Escape(s[1..], Escaped(s[0], armed).1)
  }

  function Shielded(value: string): string { if |value| > 0 && value[0] == '@' then "@" + value else value }

  function Encode(value: string): string { "\"" + Escape(Shielded(value), false) + "\"" }

  // ----- The loops -----

  function Extend(done: string, rest: Parsed): Parsed {
    match rest
    case Ok(s) => Ok(done + s)
    case Err(_) => rest
  }

  lemma ExtendPrepend(done: string, c: char, rest: Parsed)
    ensures Extend(done, Prepend(c, rest)) == Extend(done + [c], rest)
  {
    if rest.Ok? { assert done + ([c] + rest.value) == done + [c] + rest.value; }
  }

  /** Unescape, one head at a time. */
  lemma UnescapePlain(s: string, quoted: bool)
    requires s != "" && s[0] != '\\'
    ensures s[0] == '"' ==> Unescape(s, quoted) == Unescape(s[1..], !quoted)
    ensures s[0] != '"' ==> Unescape(s, quoted) == Prepend(s[0], Unescape(s[1..], quoted))
  {
  }

  lemma UnescapeLetter(s: string, quoted: bool)
    requires |s| > 1 && s[0] == '\\' && Letter(s[1]).Some?
    ensures Unescape(s, quoted) == Prepend(Letter(s[1]).value, Unescape(s[2..], quoted))
  {
    hide Letter;
  }

  lemma UnescapeNumber(s: string, quoted: bool, hex: string)
    requires |s| > 1 && s[0] == '\\' && s[1] == 'x' && hex <= s[2..]
    requires (forall i :: 0 <= i < |hex| ==> IsHex(hex[i])) && (|hex| < |s[2..]| ==> !IsHex(s[2..][|hex|]))
    ensures FromHex(hex).Ok? ==> Unescape(s, quoted) == Prepend(FromHex(hex).value, Unescape(s[2 + |hex|..], quoted))
    ensures FromHex(hex).Err? ==> Unescape(s, quoted) == Err(FromHex(hex).error)
  {
    hide FromHex, HexRun;
    RunIs(s[2..], hex);
    assert s[2..][..|hex|] == hex;
  }

  lemma UnescapeRefused(s: string, quoted: bool)
    requires |s| > 0 && s[0] == '\\'
    ensures |s| == 1 ==> Unescape(s, quoted) == Err(TruncatedEscape)
    ensures |s| > 1 && Letter(s[1]).None? && s[1] != 'x' ==> Unescape(s, quoted) == Err(UnsupportedEscape)
  {
    hide Letter, FromHex, HexRun;
  }

  lemma {:induction false} RunIs(s: string, hex: string)
    requires hex <= s && (forall i :: 0 <= i < |hex| ==> IsHex(hex[i])) && (|hex| < |s| ==> !IsHex(s[|hex|]))
    ensures HexRun(s) == |hex| && s[..HexRun(s)] == hex
  {
  }

  /** The longest run of hex digits from `start` on. */
  method ReadHex(value: string, start: nat) returns (hex: string)
    requires start <= |value|
    ensures hex <= value[start..] && forall k :: 0 <= k < |hex| ==> IsHex(hex[k])
    ensures start + |hex| < |value| ==> !IsHex(value[start + |hex|])
  {
    hex := "";
    var i := start;
    while i < |value| && IsHex(value[i])
      invariant start <= i <= |value|
      invariant hex == value[start..i] && forall k :: 0 <= k < |hex| ==> IsHex(hex[k])
    {
      hex := hex + [value[i]];
      i := i + 1;
    }
  }

  method DecodeIni(value: string) returns (r: Parsed)
    ensures r == Decode(value)
  {
    hide Unescape, FromHex, Letter, Prepend, Extend;
    var result := "";
    var quoted := false;
    var i := 0;
    ExtendNothing(value);
    while i < |value|
      invariant 0 <= i <= |value|
      invariant Unescape(value, false) == Extend(result, Unescape(value[i..], quoted))
    {
      ghost var rest := value[i..];
      var c := value[i];
      assert rest[1..] == value[i + 1..];
      if c != '\\' {
        UnescapePlain(rest, quoted);
        i := i + 1;
        if c == '"' {
          quoted := !quoted;
        } else {
          ExtendPrepend(result, c, Unescape(value[i..], quoted));
          result := result + [c];
        }
      } else {
        UnescapeRefused(rest, quoted);
        ExtendRefused(result, Unescape(rest, quoted));
        if i + 1 == |value| { return Err(TruncatedEscape); }
        assert rest[2..] == value[i + 2..];
        var letter := Letter(value[i + 1]);
        if letter.Some? {
          UnescapeLetter(rest, quoted);
          ExtendPrepend(result, letter.value, Unescape(value[i + 2..], quoted));
          result, i := result + [letter.value], i + 2;
        } else if value[i + 1] == 'x' {
          var hex := ReadHex(value, i + 2);
          UnescapeNumber(rest, quoted, hex);
          assert rest[2 + |hex|..] == value[i + 2 + |hex|..];
          var named := FromHex(hex);
          if named.Err? { return Err(named.error); }
          ExtendPrepend(result, named.value, Unescape(value[i + 2 + |hex|..], quoted));
          result, i := result + [named.value], i + 2 + |hex|;
        } else {
          return Err(UnsupportedEscape);
        }
      }
    }
    UnescapeEnd(quoted);
    assert value[|value|..] == "";
    ExtendEnd(result, quoted);
    if quoted { return Err(UnterminatedQuote); }
    return StripAt(result);
  }

  lemma UnescapeEnd(quoted: bool)
    ensures Unescape("", quoted) == if quoted then Err(UnterminatedQuote) else Ok("")
  {
  }

  lemma ExtendEnd(done: string, quoted: bool)
    ensures Extend(done, if quoted then Err(UnterminatedQuote) else Ok(""))
            == if quoted then Err(UnterminatedQuote) else Ok(done)
  {
    assert done + "" == done;
  }

  lemma ExtendNothing(value: string)
    ensures Unescape(value, false) == Extend("", Unescape(value[0..], false))
  {
    assert value[0..] == value;
    ExtendNothingAt(Unescape(value, false));
  }

  lemma ExtendRefused(done: string, r: Parsed)
    ensures r.Err? ==> Extend(done, r) == r
  {
  }

  method EncodeIni(value: string) returns (r: string)
    ensures r == Encode(value)
  {
    var text := Shielded(value);
    r := "\"";
    var armed := false;
    var i := 0;
    assert text[0..] == text;
    while i < |text|
      invariant 0 <= i <= |text|
      invariant r + Escape(text[i..], armed) == "\"" + Escape(text, false)
    {
      var (written, next) := Escaped(text[i], armed);
      assert text[i..][1..] == text[i + 1..];
      assert r + (written + Escape(text[i + 1..], next)) == r + written + Escape(text[i + 1..], next);
      r, armed, i := r + written, next, i + 1;
    }
    assert r + "" == r;
    r := r + "\"";
  }

  // ----- The round trip -----

  lemma {:induction false} HexValueOfHex(n: nat)
    ensures HexValue(Hex(n)) == n
  {
    var s := Hex(n);
    if n < 16 {
      assert s[..0] == "";
      assert HexValue(s) == 16 * HexValue("") + Digit(s[0]);
    } else {
      HexValueOfHex(n / 16);
      assert s[..|s| - 1] == Hex(n / 16);
    }
  }

  /** Reading back one escaped character, whatever follows it - provided a number
      is not followed by another hex digit. */
  lemma UnescapeEscaped(c: char, armed: bool, rest: string)
    requires Escaped(c, armed).1 ==> rest == "" || !IsHex(rest[0])
    ensures Unescape(Escaped(c, armed).0 + rest, true) == Prepend(c, Unescape(rest, true))
  {
    hide Unescape, FromHex, HexRun, Hex, HexValue;
    var all := Escaped(c, armed).0 + rest;
    if c == '\\' || c == '"' || c == '\n' || c == '\r' {
      assert all[2..] == rest;
      UnescapeLetter(all, true);
    } else if ByNumber(c, armed) {
      EscapedNumber(c, rest);
    } else {
      assert all[1..] == rest;
      UnescapePlain(all, true);
    }
  }

  lemma EscapedNumber(c: char, rest: string)
    requires rest == "" || !IsHex(rest[0])
    ensures Unescape("\\x" + Hex(c as int) + rest, true) == Prepend(c, Unescape(rest, true))
  {
    var hex := Hex(c as int);
    var all := "\\x" + hex + rest;
    assert all[2..] == hex + rest;
    assert all[2 + |hex|..] == rest;
    FromHexOfHex(c);
    UnescapeNumber(all, true, hex);
    hide *;
  }

  lemma FromHexOfHex(c: char)
    ensures FromHex(Hex(c as int)) == Ok(c)
  {
    HexValueOfHex(c as int);
  }

  /** What follows a number never starts with a hex digit. */
  lemma ArmedStart(s: string)
    ensures var t := Escape(s, true) + "\""; t != "" && !IsHex(t[0])
  {
    if s != "" {
      assert (Escape(s, true) + "\"")[0] == Escaped(s[0], true).0[0];
    }
  }

  lemma {:induction false} UnescapeEscape(s: string, armed: bool)
    ensures Unescape(Escape(s, armed) + "\"", true) == Ok(s)
  {
    if s == "" {
      assert Escape(s, armed) + "\"" == "\"";
      assert "\""[1..] == "";
    } else {
      var (written, next) := Escaped(s[0], armed);
      var rest := Escape(s[1..], next) + "\"";
      UnescapeEscape(s[1..], next);
      ArmedStart(s[1..]);
      assert Escape(s, armed) + "\"" == written + rest;
      UnescapeEscaped(s[0], armed, rest);
      assert [s[0]] + s[1..] == s;
    }
  }

  /** MAIN RESULT: every string survives being saved and read back - leading '@',
      quotes, backslashes, control characters and hex digits after a number included. */
  lemma DecodeOfEncode(value: string)
    ensures Decode(Encode(value)) == Ok(value)
  {
    var body := Shielded(value);
    UnescapeEscape(body, false);
    assert Encode(value)[1..] == Escape(body, false) + "\"";
    if body != value {
      assert body[1..] == value;
    }
  }

  /** Nothing escaped contains a control character, so a saved value is one line. */
  lemma {:induction false} EscapeIsOneLine(s: string, armed: bool)
    ensures forall i :: 0 <= i < |Escape(s, armed)| ==> Escape(s, armed)[i] >= ' '
  {
    if s != "" { EscapeIsOneLine(s[1..], Escaped(s[0], armed).1); }
  }

  lemma EncodeIsOneLine(value: string)
    ensures var e := Encode(value);
            && |e| >= 2 && e[0] == '"' && e[|e| - 1] == '"'
            && forall i :: 0 <= i < |e| ==> e[i] >= ' '
  {
    EscapeIsOneLine(Shielded(value), false);
  }

  // ----- The format itself -----

  predicate Unmarked(s: string) {
    && (forall i :: 0 <= i < |s| ==> s[i] != '"' && s[i] != '\\' && s[i] >= ' ')
    && (|s| > 0 ==> s[0] != '@')
  }

  lemma {:induction false} PlainStays(s: string, tail: string, quoted: bool)
    requires forall i :: 0 <= i < |s| ==> s[i] != '"' && s[i] != '\\'
    ensures Unescape(s + tail, quoted) == Extend(s, Unescape(tail, quoted))
  {
    if s == "" {
      assert s + tail == tail;
      ExtendNothingAt(Unescape(tail, quoted));
    } else {
      PlainStays(s[1..], tail, quoted);
      assert (s + tail)[1..] == s[1..] + tail;
      assert [s[0]] + s[1..] == s;
      if Unescape(tail, quoted).Ok? {
        assert [s[0]] + (s[1..] + Unescape(tail, quoted).value) == s + Unescape(tail, quoted).value;
      }
    }
  }

  lemma ExtendNothingAt(rest: Parsed)
    ensures Extend("", rest) == rest
  {
    if rest.Ok? { assert "" + rest.value == rest.value; }
  }

  /** Text without quotes, backslashes, control characters or a leading @ is written between
      quotes as it is, and is read with or without them. */
  lemma PlainTextIsItself(s: string)
    requires Unmarked(s)
    ensures Encode(s) == "\"" + s + "\""
    ensures Decode(s) == Ok(s) && Decode("\"" + s + "\"") == Ok(s)
  {
    PlainEscape(s);
    PlainStays(s, "", false);
    assert s + "" == s;
    PlainStays(s, "\"", true);
    assert Unescape("\"", true) == Unescape("\""[1..], false);
    var whole := "\"" + s + "\"";
    assert whole[1..] == s + "\"";
    hide Escape;
  }

  lemma {:induction false} PlainEscape(s: string)
    requires forall i :: 0 <= i < |s| ==> s[i] != '"' && s[i] != '\\' && s[i] >= ' '
    ensures Escape(s, false) == s
  {
    if s != "" { PlainEscape(s[1..]); }
  }

  /** The escapes a reader knows, in front of anything, and how the others end. */
  lemma EscapesStandFor(rest: string, quoted: bool)
    ensures Unescape("\\n" + rest, quoted) == Extend("\n", Unescape(rest, quoted))
    ensures Unescape("\\r" + rest, quoted) == Extend("\r", Unescape(rest, quoted))
    ensures Unescape("\\t" + rest, quoted) == Extend("\t", Unescape(rest, quoted))
    ensures Unescape("\\a" + rest, quoted) == Extend("\U{7}", Unescape(rest, quoted))
    ensures Unescape("\\b" + rest, quoted) == Extend("\U{8}", Unescape(rest, quoted))
    ensures Unescape("\\f" + rest, quoted) == Extend("\U{C}", Unescape(rest, quoted))
    ensures Unescape("\\v" + rest, quoted) == Extend("\U{B}", Unescape(rest, quoted))
    ensures Unescape("\\\\" + rest, quoted) == Extend("\\", Unescape(rest, quoted))
    ensures Unescape("\\\"" + rest, quoted) == Extend("\"", Unescape(rest, quoted))
  {
    EscapeIs('n', '\n', rest, quoted);
    EscapeIs('r', '\r', rest, quoted);
    EscapeIs('t', '\t', rest, quoted);
    EscapeIs('a', 7 as char, rest, quoted);
    EscapeIs('b', 8 as char, rest, quoted);
    EscapeIs('f', 12 as char, rest, quoted);
    EscapeIs('v', 11 as char, rest, quoted);
    EscapeIs('\\', '\\', rest, quoted);
    EscapeIs('"', '"', rest, quoted);
    hide Unescape, Letter, Extend;
  }

  lemma EscapeIs(c: char, meant: char, rest: string, quoted: bool)
    requires Letter(c) == Some(meant)
    ensures Unescape(['\\', c] + rest, quoted) == Extend([meant], Unescape(rest, quoted))
  {
    assert (['\\', c] + rest)[2..] == rest;
    hide Letter;
  }

  /** A hex escape runs as far as hex digits do. */
  lemma HexEscapeIs(digits: string, rest: string, quoted: bool)
    requires digits != "" && (forall i :: 0 <= i < |digits| ==> IsHex(digits[i])) && (rest == "" || !IsHex(rest[0]))
    requires HexValue(digits) < 0xD800
    ensures Unescape("\\x" + digits + rest, quoted) == Extend([HexValue(digits) as char], Unescape(rest, quoted))
  {
    var s := "\\x" + digits + rest;
    assert s[2..] == digits + rest;
    RunIs(digits + rest, digits);
    assert (digits + rest)[..|digits|] == digits;
    assert s[2 + |digits|..] == rest;
  }

  /** What a reader refuses. */
  lemma RefusedForms()
    ensures Decode("\"") == Err(UnterminatedQuote)
    ensures Decode("\\") == Err(TruncatedEscape)
    ensures Decode("\\q") == Err(UnsupportedEscape)
    ensures Decode("\\x") == Err(BadHex)
    ensures Decode("@") == Err(UnsupportedVariant)
    ensures Decode("@@") == Ok("@")
  {
    assert Unescape("\""[1..], true) == Err(UnterminatedQuote);
    assert "\\x"[2..] == "" && ""[..0] == "";
    PlainStays("@", "", false);
    PlainStays("@@", "", false);
    assert "@" + "" == "@" && "@@" + "" == "@@";
    assert "@@"[1..] == "@";
  }

  /** The escapes a writer uses: a control character in hex, and after one a hex digit too. */
  lemma WrittenForms()
    ensures Encode("\n") == "\"\\n\"" && Encode("\r") == "\"\\r\""
    ensures Encode("\\") == "\"\\\\\"" && Encode("\"") == "\"\\\"\""
    ensures Encode("@") == "\"@@\""
    ensures Encode("\tA") == "\"\\x9\\x41\""
  {
    OneEscaped('\n');
    OneEscaped('\r');
    OneEscaped('\\');
    OneEscaped('"');
    assert Escape("@@", false) == "@@" by { PlainEscape("@@"); }
    TabThenLetter();
    hide Escape, Escaped;
  }

  lemma TabThenLetter()
    ensures Escape("\tA", false) == "\\x9\\x41"
  {
    assert Hex(9) == "9" && Hex(0x41) == Hex(4) + "1" == "41";
    assert "\tA"[1..] == "A" && "A"[1..] == "";
    assert Escape("A", true) == "\\x41" + "" == "\\x41";
    assert Escape("\tA", false) == "\\x9" + "\\x41" == "\\x9\\x41";
  }

  lemma OneEscaped(c: char)
    ensures Escape([c], false) == Escaped(c, false).0
  {
    assert [c][1..] == "";
    assert Escaped(c, false).0 + "" == Escaped(c, false).0;
  }
}
