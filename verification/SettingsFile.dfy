/** Editing the settings file in place (host-rs/src/settings.rs:321-354, 374, 466-486).

    `keys` are the settings this program knows, in the order it writes them; the
    concrete list is in SettingsValues. */
module SettingsFile {
  import opened Basics
  import opened IniText

  const GENERAL: string := "[General]"

  /** The characters `str::trim` removes. */
  predicate IsSpace(c: char) {
    var n := c as int;
    || 9 <= n <= 13 || n == 32 || n == 0x85 || n == 0xA0 || n == 0x1680 || 0x2000 <= n <= 0x200A
    || n == 0x2028 || n == 0x2029 || n == 0x202F || n == 0x205F || n == 0x3000
  }

  function TrimStart(s: string): (t: string)
    ensures |t| <= |s| && t == s[|s| - |t|..]
    ensures t != "" ==> !IsSpace(t[0])
    ensures s != "" && !IsSpace(s[0]) ==> t == s
  {
    if s != "" && IsSpace(s[0]) then TrimStart(s[1..]) else s
  }

  function TrimEnd(s: string): (t: string)
    ensures t <= s
    ensures t != "" ==> !IsSpace(t[|t| - 1])
    ensures s != "" && !IsSpace(s[|s| - 1]) ==> t == s
  {
    if s != "" && IsSpace(s[|s| - 1]) then TrimEnd(s[..|s| - 1]) else s
  }

  function Trim(s: string): string { TrimStart(TrimEnd(s)) }

  /** The text before and after the first '='. */
  function SplitOnce(s: string): Option<(string, string)> {
    if s == "" then None
    else if s[0] == '=' then Some(("", s[1..]))
    else
      match SplitOnce(s[1..])
      case Some((k, v)) => Some(([s[0]] + k, v))
      case None => None
  }

  predicate Opens(line: string) { Trim(line) != "" && Trim(line)[0] == '[' }

  /** Whether the lines after `line` are in the [General] section. */
  predicate Section(line: string, general: bool) { if Opens(line) then Trim(line) == GENERAL else general }

  /** Whether `line`, in a section, sets a setting this program knows. */
  predicate Known(line: string, general: bool, keys: seq<string>) {
    general && SplitOnce(Trim(line)).Some? && Trim(SplitOnce(Trim(line)).value.0) in keys
  }

  // ----- Reading -----

  type Values = map<string, string>

  function ParseFrom(lines: seq<string>, general: bool, keys: seq<string>, done: Values): Result<Values, IniError> {
    if lines == [] then Ok(done)
    else
      var line := Trim(lines[0]);
      if Opens(lines[0]) then ParseFrom(lines[1..], line == GENERAL, keys, done)
      else if !general || line == "" || line[0] == ';' || line[0] == '#' then ParseFrom(lines[1..], general, keys, done)
      else
        match SplitOnce(line)
        case None => ParseFrom(lines[1..], general, keys, done)
        case Some((key, value)) =>
          if Trim(key) !in keys then ParseFrom(lines[1..], general, keys, done)
          else
            match Decode(Trim(value))
            case Ok(text) => ParseFrom(lines[1..], general, keys, done[Trim(key) := text])
            case Err(e) => Err(e)
  }

  function ParseLines(lines: seq<string>, keys: seq<string>): Result<Values, IniError> {
    ParseFrom(lines, false, keys, map[])
  }

  method ParseIni(lines: seq<string>, keys: seq<string>) returns (r: Result<Values, IniError>)
    ensures r == ParseLines(lines, keys)
  {
    hide Decode, Trim, SplitOnce;
    var values: Values := map[];
    var general := false;
    var i := 0;
    assert lines[0..] == lines;
    while i < |lines|
      invariant 0 <= i <= |lines|
      invariant ParseLines(lines, keys) == ParseFrom(lines[i..], general, keys, values)
    {
      assert lines[i..][1..] == lines[i + 1..];
      var line := Trim(lines[i]);
      if line != "" && line[0] == '[' {
        general := line == GENERAL;
      } else if general && line != "" && line[0] != ';' && line[0] != '#' {
        var split := SplitOnce(line);
        if split.Some? && Trim(split.value.0) in keys {
          var text := DecodeIni(Trim(split.value.1));
          if text.Err? { return Err(text.error); }
          values := values[Trim(split.value.0) := text.value];
        }
      }
      i := i + 1;
    }
    return Ok(values);
  }

  // ----- Saving -----

  /** The lines that are not this program's own settings. */
  function Kept(lines: seq<string>, general: bool, keys: seq<string>): seq<string> {
    if lines == [] then []
    else
      var now := Section(lines[0], general);
      (if Known(lines[0], now, keys) then [] else [lines[0]]) + Kept(lines[1..], now, keys)
  }

  function FirstGeneral(lines: seq<string>): (at: Option<nat>)
    ensures at.Some? ==> at.value < |lines|
  {
    if lines == [] then None
    else if Trim(lines[0]) == GENERAL then Some(0)
    else
      match FirstGeneral(lines[1..])
      case Some(i) => Some(i + 1)
      case None => None
  }

  function Setting(key: string, value: string): string { key + "=" + Encode(value) }

  function Additions(keys: seq<string>, values: Values): (lines: seq<string>)
    requires forall k :: k in keys ==> k in values
    ensures |lines| == |keys|
  {
    if keys == [] then []
    else [Setting(keys[0], values[keys[0]])] + Additions(keys[1..], values)
  }

  function Insert(kept: seq<string>, additions: seq<string>): seq<string> {
    match FirstGeneral(kept)
    case Some(i) => kept[..i + 1] + additions + kept[i + 1..]
    case None => kept + [GENERAL] + additions
  }

  function SaveLines(lines: seq<string>, keys: seq<string>, values: Values): seq<string>
    requires forall k :: k in keys ==> k in values
  {
    Insert(Kept(lines, false, keys), Additions(keys, values))
  }

  method EditLines(lines: seq<string>, keys: seq<string>, values: Values) returns (result: seq<string>)
    requires forall k :: k in keys ==> k in values
    ensures result == SaveLines(lines, keys, values)
  {
    hide Encode, Trim, SplitOnce, FirstGeneral, Additions, Kept, Insert;
    result := [];
    var general := false;
    var i := 0;
    assert lines[0..] == lines;
    while i < |lines|
      invariant 0 <= i <= |lines|
      invariant result + Kept(lines[i..], general, keys) == Kept(lines, false, keys)
    {
      ghost var was := general;
      KeptStep(result, lines, i, general, keys);
      var trimmed := Trim(lines[i]);
      if trimmed != "" && trimmed[0] == '[' { general := trimmed == GENERAL; }
      var split := SplitOnce(trimmed);
      var known := general && split.Some? && Trim(split.value.0) in keys;
      assert general == Section(lines[i], was) && known == Known(lines[i], general, keys);
      if !known { result := result + [lines[i]]; }
      i := i + 1;
    }
    NothingKept(result, lines[i..], general, keys);
    var additions := AdditionLines(keys, values);
    var index := FirstGeneral(result);
    InsertIs(result, additions);
    match index {
      case Some(i) => result := result[..i + 1] + additions + result[i + 1..];
      case None => result := result + [GENERAL] + additions;
    }
  }

  lemma KeptStep(done: seq<string>, lines: seq<string>, i: nat, general: bool, keys: seq<string>)
    requires i < |lines|
    ensures var now := Section(lines[i], general);
            done + Kept(lines[i..], general, keys)
            == (if Known(lines[i], now, keys) then done else done + [lines[i]]) + Kept(lines[i + 1..], now, keys)
  {
    hide Section, Known;
    var rest := lines[i..];
    assert rest[0] == lines[i] && rest[1..] == lines[i + 1..];
    var now := Section(lines[i], general);
    var head, tail := if Known(lines[i], now, keys) then [] else [lines[i]], Kept(lines[i + 1..], now, keys);
    assert Kept(rest, general, keys) == head + tail;
    hide Kept;
    assert done + (head + tail) == (done + head) + tail;
    assert done + [] == done;
  }

  lemma NothingKept(done: seq<string>, rest: seq<string>, general: bool, keys: seq<string>)
    requires rest == []
    ensures done + Kept(rest, general, keys) == done
  {
  }

  lemma InsertIs(kept: seq<string>, additions: seq<string>)
    ensures Insert(kept, additions)
            == match FirstGeneral(kept)
               case Some(i) => kept[..i + 1] + additions + kept[i + 1..]
               case None => kept + [GENERAL] + additions
  {
    hide FirstGeneral;
  }

  method AdditionLines(keys: seq<string>, values: Values) returns (additions: seq<string>)
    requires forall k :: k in keys ==> k in values
    ensures additions == Additions(keys, values)
  {
    hide Encode;
    additions := [];
    var i := 0;
    assert keys[0..] == keys;
    while i < |keys|
      invariant 0 <= i <= |keys|
      invariant additions + Additions(keys[i..], values) == Additions(keys, values)
    {
      ghost var rest := keys[i..];
      assert rest[0] == keys[i] && rest[1..] == keys[i + 1..];
      var text := EncodeIni(values[keys[i]]);
      assert keys[i] + "=" + text == Setting(keys[i], values[keys[i]]);
      additions := additions + [keys[i] + "=" + text];
      i := i + 1;
    }
    assert additions + [] == additions;
  }

  // ----- Kept lines are silent -----

  /** No line sets a known setting. */
  predicate Silent(lines: seq<string>, general: bool, keys: seq<string>) {
    lines != [] ==>
      var now := Section(lines[0], general);
      !Known(lines[0], now, keys) && Silent(lines[1..], now, keys)
  }

  /** The section in force after `lines`. */
  predicate SectionAfter(lines: seq<string>, general: bool) {
    if lines == [] then general else SectionAfter(lines[1..], Section(lines[0], general))
  }

  predicate Plain(key: string) {
    && key != "" && key[0] != '[' && key[0] != ';' && key[0] != '#'
    && forall i :: 0 <= i < |key| ==> key[i] != '=' && !IsSpace(key[i])
  }

  lemma {:induction false} KeptIsSilent(lines: seq<string>, general: bool, keys: seq<string>)
    requires forall k :: k in keys ==> Plain(k)
    ensures Silent(Kept(lines, general, keys), general, keys)
  {
    hide Known, Section;
    if lines != [] {
      var now := Section(lines[0], general);
      KeptIsSilent(lines[1..], now, keys);
      if Known(lines[0], now, keys) {
        KnownOpensNothing(lines[0], general, keys);
        assert Kept(lines, general, keys) == Kept(lines[1..], now, keys);
      } else {
        assert Kept(lines, general, keys)[1..] == Kept(lines[1..], now, keys);
      }
    }
  }

  /** A line that sets a known setting never opens a section. */
  lemma KnownOpensNothing(line: string, general: bool, keys: seq<string>)
    requires forall k :: k in keys ==> Plain(k)
    requires Known(line, Section(line, general), keys)
    ensures !Opens(line) && Section(line, general) == general
  {
    if Opens(line) {
      assert Trim(line) == GENERAL;
      GeneralSetsNothing();
    }
  }

  lemma GeneralSetsNothing()
    ensures SplitOnce(GENERAL).None? && Trim(GENERAL) == GENERAL && Opens(GENERAL)
  {
    hide SplitOnce, Trim;
    assert !IsSpace('[') && !IsSpace(']');
    hide IsSpace;
    assert GENERAL[0] == '[' && GENERAL[|GENERAL| - 1] == ']';
    TrimTight(GENERAL);
    assert forall i :: 0 <= i < |GENERAL| ==> GENERAL[i] != '=';
    NoEquals(GENERAL);
  }

  lemma {:induction false} NoEquals(s: string)
    requires forall i :: 0 <= i < |s| ==> s[i] != '='
    ensures SplitOnce(s).None?
  {
    if s != "" { NoEquals(s[1..]); }
  }

  lemma {:induction false} SilentStays(lines: seq<string>, general: bool, keys: seq<string>)
    requires Silent(lines, general, keys)
    ensures Kept(lines, general, keys) == lines
  {
    hide Known, Section;
    if lines != [] {
      SilentStays(lines[1..], Section(lines[0], general), keys);
      assert [lines[0]] + lines[1..] == lines;
    }
  }

  lemma {:induction false} SilentSplit(a: seq<string>, b: seq<string>, general: bool, keys: seq<string>)
    ensures Silent(a + b, general, keys) <==> Silent(a, general, keys) && Silent(b, SectionAfter(a, general), keys)
  {
    hide Known, Section;
    if a == [] {
      assert a + b == b;
    } else {
      SilentSplit(a[1..], b, Section(a[0], general), keys);
      assert (a + b)[1..] == a[1..] + b;
    }
  }

  lemma KeptCons(line: string, rest: seq<string>, general: bool, keys: seq<string>)
    ensures var now := Section(line, general);
            Kept([line] + rest, general, keys)
              == (if Known(line, now, keys) then [] else [line]) + Kept(rest, now, keys)
    ensures SectionAfter([line] + rest, general) == SectionAfter(rest, Section(line, general))
  {
    hide Known, Section;
    assert ([line] + rest)[1..] == rest;
  }

  lemma KeptNone(rest: seq<string>, general: bool, keys: seq<string>)
    ensures Kept([], general, keys) == [] && SectionAfter([], general) == general
    ensures [] + rest == rest
  {
  }

  lemma {:induction false} KeptSplit(a: seq<string>, b: seq<string>, general: bool, keys: seq<string>)
    ensures Kept(a + b, general, keys) == Kept(a, general, keys) + Kept(b, SectionAfter(a, general), keys)
  {
    hide *;
    if a == [] {
      KeptNone(b, general, keys);
      KeptNone(Kept(b, general, keys), general, keys);
    } else {
      var now := Section(a[0], general);
      var head := if Known(a[0], now, keys) then [] else [a[0]];
      var front, back := Kept(a[1..], now, keys), Kept(b, SectionAfter(a[1..], now), keys);
      KeptSplit(a[1..], b, now, keys);
      assert [a[0]] + a[1..] == a;
      assert a + b == [a[0]] + (a[1..] + b);
      KeptCons(a[0], a[1..], general, keys);
      KeptCons(a[0], a[1..] + b, general, keys);
      assert (head + front) + back == head + (front + back);
    }
  }

  lemma {:induction false} SilentParses(lines: seq<string>, general: bool, keys: seq<string>, done: Values,
      rest: seq<string>)
    requires Silent(lines, general, keys)
    ensures ParseFrom(lines + rest, general, keys, done) == ParseFrom(rest, SectionAfter(lines, general), keys, done)
  {
    hide Trim, SplitOnce, Decode;
    if lines == [] {
      assert lines + rest == rest;
    } else {
      SilentParses(lines[1..], Section(lines[0], general), keys, done, rest);
      assert (lines + rest)[1..] == lines[1..] + rest;
    }
  }

  // ----- Added lines say what was saved -----

  lemma {:induction false} SplitOnceAt(key: string, rest: string)
    requires forall i :: 0 <= i < |key| ==> key[i] != '='
    ensures SplitOnce(key + "=" + rest) == Some((key, rest))
  {
    var s := key + "=" + rest;
    if key == "" {
      assert s[1..] == rest;
    } else {
      SplitOnceAt(key[1..], rest);
      assert s[1..] == key[1..] + "=" + rest;
      assert [key[0]] + key[1..] == key;
    }
  }

  lemma TrimTight(s: string)
    requires s != "" && !IsSpace(s[0]) && !IsSpace(s[|s| - 1])
    ensures Trim(s) == s
  {
  }

  lemma SettingReads(key: string, value: string)
    requires Plain(key)
    ensures var line := Setting(key, value);
            && Trim(line) == line && SplitOnce(line) == Some((key, Encode(value)))
            && Trim(key) == key && Trim(Encode(value)) == Encode(value)
            && line != "" && line[0] != '[' && line[0] != ';' && line[0] != '#'
  {
    hide Encode, IsSpace;
    var line := Setting(key, value);
    EncodeIsOneLine(value);
    NotSpace();
    SplitOnceAt(key, Encode(value));
    assert line[0] == key[0] && line[|line| - 1] == Encode(value)[|Encode(value)| - 1];
    TrimTight(line);
    TrimTight(key);
    TrimTight(Encode(value));
  }

  lemma NotSpace()
    ensures !IsSpace('"')
  {
  }

  lemma AddedIsKnown(key: string, value: string, keys: seq<string>)
    requires Plain(key) && key in keys
    ensures Known(Setting(key, value), true, keys) && Section(Setting(key, value), true)
    ensures forall rest, done: Values ::
      ParseFrom([Setting(key, value)] + rest, true, keys, done) == ParseFrom(rest, true, keys, done[key := value])
  {
    SettingReads(key, value);
    DecodeOfEncode(value);
    hide Decode, Trim, SplitOnce, Setting;
    forall rest, done: Values
      ensures ParseFrom([Setting(key, value)] + rest, true, keys, done)
          == ParseFrom(rest, true, keys, done[key := value])
    {
      assert ([Setting(key, value)] + rest)[1..] == rest;
    }
  }

  /** `values` over the keys from position `from` on, on top of `done`. */
  function Assigned(done: Values, keys: seq<string>, values: Values): Values
    requires forall k :: k in keys ==> k in values
    decreases |keys|
  {
    if keys == [] then done else Assigned(done[keys[0] := values[keys[0]]], keys[1..], values)
  }

  lemma {:induction false} AssignedIs(done: Values, keys: seq<string>, values: Values)
    requires forall k :: k in keys ==> k in values
    ensures forall k :: k in Assigned(done, keys, values) <==> k in done || k in keys
    ensures forall k :: k in Assigned(done, keys, values) ==>
              Assigned(done, keys, values)[k] == if k in keys then values[k] else done[k]
    decreases |keys|
  {
    if keys != [] {
      AssignedIs(done[keys[0] := values[keys[0]]], keys[1..], values);
      assert keys == [keys[0]] + keys[1..];
    }
  }

  lemma {:induction false} AdditionsParse(some: seq<string>, keys: seq<string>, values: Values, done: Values,
      rest: seq<string>)
    requires forall k :: k in some ==> k in values && k in keys && Plain(k)
    ensures ParseFrom(Additions(some, values) + rest, true, keys, done)
        == ParseFrom(rest, true, keys, Assigned(done, some, values))
    ensures Kept(Additions(some, values), true, keys) == [] && SectionAfter(Additions(some, values), true)
  {
    hide Decode, Trim, SplitOnce, Setting, Known, Section;
    var lines := Additions(some, values);
    if some == [] {
      assert lines + rest == rest;
    } else {
      var (key, value) := (some[0], values[some[0]]);
      AddedIsKnown(key, value, keys);
      AdditionsParse(some[1..], keys, values, done[key := value], rest);
      assert lines[1..] == Additions(some[1..], values);
      assert lines + rest == [Setting(key, value)] + (Additions(some[1..], values) + rest);
    }
  }

  // ----- Main results -----

  ghost predicate Proper(keys: seq<string>, values: Values) {
    && (forall k :: k in keys ==> Plain(k))
    && (forall k :: k in values <==> k in keys)
  }

  /** The kept lines up to and including the first [General], and after it. */
  lemma Around(lines: seq<string>, keys: seq<string>, values: Values) returns (before: seq<string>, after: seq<string>)
    requires Proper(keys, values)
    ensures SaveLines(lines, keys, values) == before + Additions(keys, values) + after
    ensures Silent(before, false, keys) && SectionAfter(before, false) && Silent(after, true, keys)
    ensures before != [] && Trim(before[|before| - 1]) == GENERAL
    ensures forall i :: 0 <= i < |before| - 1 ==> Trim(before[i]) != GENERAL
    ensures before + after == (var kept := Kept(lines, false, keys); if FirstGeneral(kept).Some? then kept
        else kept + [GENERAL])
  {
    hide Trim, Silent, SectionAfter, Kept, FirstGeneral, Known, Additions;
    var kept := Kept(lines, false, keys);
    KeptIsSilent(lines, false, keys);
    FirstGeneralFinds(kept);
    GeneralSetsNothing();
    match FirstGeneral(kept) {
      case Some(i) =>
        before, after := kept[..i + 1], kept[i + 1..];
        assert kept == before + after;
        SilentSplit(before, after, false, keys);
        assert before == kept[..i] + [kept[i]];
        EndsInGeneral(kept[..i], kept[i], false);
      case None =>
        before, after := kept + [GENERAL], [];
        GeneralIsSilent(SectionAfter(kept, false), keys);
        SilentSplit(kept, [GENERAL], false, keys);
        EndsInGeneral(kept, GENERAL, false);
        assert before + Additions(keys, values) + after == kept + [GENERAL] + Additions(keys, values);
        assert before + after == kept + [GENERAL];
    }
  }

  lemma GeneralIsSilent(general: bool, keys: seq<string>)
    ensures Silent([GENERAL], general, keys) && Silent([], true, keys)
  {
    hide Trim, SplitOnce;
    GeneralSetsNothing();
    assert [GENERAL][1..] == [];
  }

  lemma {:induction false} EndsInGeneral(lines: seq<string>, last: string, general: bool)
    requires Trim(last) == GENERAL
    ensures SectionAfter(lines + [last], general)
  {
    hide Trim, Section;
    if lines == [] {
      assert lines + [last] == [last];
      assert [last][1..] == [];
      GeneralOpens(last, general);
    } else {
      EndsInGeneral(lines[1..], last, Section(lines[0], general));
      assert (lines + [last])[1..] == lines[1..] + [last];
    }
  }

  lemma GeneralOpens(line: string, general: bool)
    requires Trim(line) == GENERAL
    ensures Section(line, general)
  {
    hide Trim;
    assert GENERAL[0] == '[';
  }

  /** MAIN RESULT: whatever the file held, reading it back after a save gives
      exactly the saved settings. */
  lemma SavedIsRead(lines: seq<string>, keys: seq<string>, values: Values)
    requires Proper(keys, values)
    ensures ParseLines(SaveLines(lines, keys, values), keys) == Ok(values)
  {
    hide SaveLines, ParseFrom, Silent, SectionAfter, Additions, Trim, Kept, FirstGeneral, Assigned, Plain;
    var before, after := Around(lines, keys, values);
    var added := Additions(keys, values);
    assert before + added + after == before + (added + after);
    SilentParses(before, false, keys, map[], added + after);
    AdditionsParse(keys, keys, values, map[], after);
    AssignedIs(map[], keys, values);
    assert after + [] == after;
    SilentParses(after, true, keys, Assigned(map[], keys, values), []);
    ParseNothing(SectionAfter(after, true), keys, Assigned(map[], keys, values));
    assert Assigned(map[], keys, values) == values;
  }

  lemma ParseNothing(general: bool, keys: seq<string>, done: Values)
    ensures ParseFrom([], general, keys, done) == Ok(done)
  {
  }

  /** MAIN RESULT: a save keeps every other line and section, in order; only the
      [General] heading is added when there was none. */
  lemma SaveKeepsTheRest(lines: seq<string>, keys: seq<string>, values: Values)
    requires Proper(keys, values)
    ensures var kept := Kept(lines, false, keys);
            Kept(SaveLines(lines, keys, values), false, keys)
            == if FirstGeneral(kept).Some? then kept else kept + [GENERAL]
  {
    hide SaveLines, Silent, SectionAfter, Trim, Additions, FirstGeneral;
    var before, after := Around(lines, keys, values);
    var added := Additions(keys, values);
    KeptSplit(before + added, after, false, keys);
    KeptSplit(before, added, false, keys);
    AdditionsParse(keys, keys, values, map[], []);
    SilentStays(before, false, keys);
    SilentStays(after, true, keys);
    SectionSplit(before, added, false);
    assert before + [] == before;
  }

  lemma {:induction false} SectionSplit(a: seq<string>, b: seq<string>, general: bool)
    ensures SectionAfter(a + b, general) == SectionAfter(b, SectionAfter(a, general))
  {
    hide Section;
    if a == [] {
      assert a + b == b;
    } else {
      SectionSplit(a[1..], b, Section(a[0], general));
      assert (a + b)[1..] == a[1..] + b;
    }
  }

  lemma {:induction false} FirstGeneralFinds(lines: seq<string>)
    ensures var at := FirstGeneral(lines);
            && (at.Some? ==> Trim(lines[at.value]) == GENERAL && forall i :: 0 <= i < at.value ==>
              Trim(lines[i]) != GENERAL)
            && (at.None? ==> forall i :: 0 <= i < |lines| ==> Trim(lines[i]) != GENERAL)
  {
    hide Trim;
    if lines != [] && Trim(lines[0]) != GENERAL {
      FirstGeneralFinds(lines[1..]);
      assert lines == [lines[0]] + lines[1..];
    }
  }

  lemma FirstGeneralIs(lines: seq<string>, at: nat)
    requires at < |lines| && Trim(lines[at]) == GENERAL && forall i :: 0 <= i < at ==> Trim(lines[i]) != GENERAL
    ensures FirstGeneral(lines) == Some(at)
  {
    hide Trim, FirstGeneral;
    FirstGeneralFinds(lines);
  }

  /** MAIN RESULT: saving the same settings again changes no line. */
  lemma SaveIsAFixedPoint(lines: seq<string>, keys: seq<string>, values: Values)
    requires Proper(keys, values)
    ensures SaveLines(SaveLines(lines, keys, values), keys, values) == SaveLines(lines, keys, values)
  {
    hide Silent, SectionAfter, Trim, Additions, FirstGeneral, Kept, Insert, Plain;
    SaveKeepsTheRest(lines, keys, values);
    var before, after := Around(lines, keys, values);
    InsertAfter(before, after, Additions(keys, values));
  }

  lemma InsertAfter(before: seq<string>, after: seq<string>, additions: seq<string>)
    requires before != [] && Trim(before[|before| - 1]) == GENERAL
    requires forall i :: 0 <= i < |before| - 1 ==> Trim(before[i]) != GENERAL
    ensures Insert(before + after, additions) == before + additions + after
  {
    hide Trim, FirstGeneral;
    var lines := before + after;
    FirstGeneralIs(lines, |before| - 1);
    assert lines[..|before|] == before && lines[|before|..] == after;
  }
}
