/** The settings file's keys and values by their own names: what every key sets when it is
    read, and what every setting writes (host-rs/src/settings.rs:88-215). */
module SettingsLayout {
  import opened Basics
  import opened IniText
  import opened ModeResolver
  import opened QualitySwitch
  import opened SettingsFile
  import opened SettingsValues

  /** MAIN RESULT: the texts and switches of a file that loads, key by key; a key that is
      absent leaves the default. */
  lemma TextsAreLoaded(values: Values, build: Build)
    ensures var loaded := FromValues(values, build);
            loaded.Ok? ==>
              var s := loaded.value;
              && s.transport == (if "transport" in values then values["transport"] else "usb")
              && s.lanHost == (if "lanHost" in values then values["lanHost"] else "")
              && s.lanFingerprint == (if "lanFingerprint" in values then values["lanFingerprint"] else "")
              && s.lanKey == (if "lanKey" in values then values["lanKey"] else "")
              && s.decode == (if "decode" in values then values["decode"] else "auto")
              && s.output == (if "output" in values then values["output"] else build.output)
              && s.outputKind == (if "outputKind" in values then values["outputKind"] else "loopback")
  {
    hide Validate, ParseUnsigned, ParseBool, GetQuality, ClampWish;
    LoadsAs(values, build);
  }

  /** What a load assembles, before the clamp and the checks. */
  lemma LoadsAs(values: Values, build: Build)
    ensures var loaded := FromValues(values, build);
            loaded.Ok? ==>
              && GetBool(values, FMirror, true).Some? && GetBool(values, FVerticalFlip, false).Some?
              && GetNumber(values, FRotation, U16_LIMIT).Some?
              && var (quality, connected) := (GetQuality(values), GetNumber(values, FLastConnected, U64_LIMIT));
                 loaded.value
                 == ClampToEdition(Settings(
                      Get(values, FTransport, "usb"), Get(values, FLanHost, ""), Get(values, FLanFingerprint, ""),
                      Get(values, FLanKey, ""), if connected.Some? then connected.value else 0,
                      Get(values, FDecode, "auto"), Get(values, FOutput, build.output),
                      Get(values, FOutputKind, "loopback"), GetNumber(values, FRotation, U16_LIMIT).value,
                      GetBool(values, FMirror, true).value, GetBool(values, FVerticalFlip, false).value,
                      if quality.Some? then quality.value else AUTO,
                      if quality.Some? then None else Some(InvalidQuality), false))
  {
    hide ParseUnsigned, ParseBool, GetQuality, GetBool, GetNumber, Get, ClampToEdition, Validate;
    ValidatedIsItself(values, build);
  }

  lemma ValidatedIsItself(values: Values, build: Build)
    ensures forall s :: Validate(s, build).Ok? ==> Validate(s, build).value == s
  {
  }

  /** The switches take true, 1, false and 0, and nothing else loads. */
  lemma SwitchesAreLoaded(values: Values, build: Build)
    ensures var loaded := FromValues(values, build);
            loaded.Ok? ==>
              && (loaded.value.mirror <==>
                    "mirror" !in values || values["mirror"] == "true" || values["mirror"] == "1")
              && (loaded.value.verticalFlip <==>
                    "verticalFlip" in values && (values["verticalFlip"] == "true" || values["verticalFlip"] == "1"))
    ensures ("mirror" in values && values["mirror"] !in {"true", "1", "false", "0"}) ==>
              FromValues(values, build) == Err(BadBoolean)
    ensures ("verticalFlip" in values && values["verticalFlip"] !in {"true", "1", "false", "0"}) ==>
              FromValues(values, build).Err?
  {
    LoadsAs(values, build);
    hide Validate, ParseUnsigned, GetQuality, ClampWish;
  }

  /** The numbers: the rotation must be one, the last connection may be anything, and the
      wish is taken only as a whole. */
  lemma NumbersAreLoaded(values: Values, build: Build)
    ensures var loaded := FromValues(values, build);
            loaded.Ok? ==>
              && (if "rotation" in values
                  then ParseUnsigned(values["rotation"], 0x1_0000) == Some(loaded.value.rotation as nat)
                  else loaded.value.rotation == 0)
              && loaded.value.lastConnected
                 == (if "lastConnected" !in values then 0
                     else match ParseUnsigned(values["lastConnected"], 0x1_0000_0000_0000_0000)
                          case Some(n) => n
                          case None => 0)
    ensures "rotation" in values && ParseUnsigned(values["rotation"], 0x1_0000).None? ==> FromValues(values, build).Err?
  {
    LoadsAs(values, build);
    hide Validate, ParseUnsigned, ParseBool, GetQuality, ClampWish;
  }

  function Part(values: Values, key: string): Option<nat> {
    if key in values then ParseUnsigned(values[key], 0x1_0000) else Some(0)
  }

  lemma WishIsLoaded(values: Values, build: Build)
    ensures var loaded := FromValues(values, build);
            var width, height := Part(values, "qualityWidth"), Part(values, "qualityHeight");
            var fps := Part(values, "qualityFps");
            var whole := width.Some? && height.Some? && fps.Some? && Valid(Mode(width.value, height.value, fps.value));
            loaded.Ok? ==>
              && loaded.value.quality
                 == (if whole then ClampWish(OSS_CAP_1080P30, Mode(width.value, height.value, fps.value)) else AUTO)
              && loaded.value.clamped == (whole && loaded.value.quality != Mode(width.value, height.value, fps.value))
              && loaded.value.warning
                 == (if !whole then Some(InvalidQuality) else if loaded.value.clamped then Some(AboveEdition) else None)
  {
    LoadsAs(values, build);
    WishParts(values);
    AutoIsKept();
    hide Validate, ParseUnsigned, ParseBool, ClampWish, Valid, GetQuality, Part;
  }

  lemma WishParts(values: Values)
    ensures var width, height := Part(values, "qualityWidth"), Part(values, "qualityHeight");
            var fps := Part(values, "qualityFps");
            GetQuality(values)
            == if width.Some? && height.Some? && fps.Some? && Valid(Mode(width.value, height.value, fps.value))
               then Some(Mode(width.value, height.value, fps.value)) else None
  {
    hide ParseUnsigned, Valid;
  }

  lemma AutoIsKept()
    ensures ClampWish(OSS_CAP_1080P30, AUTO) == AUTO
  {
  }

  /** MAIN RESULT: what a save writes, key by key. */
  lemma ValuesAreWritten(s: Settings)
    ensures var v := ValuesOf(s);
            && "transport" in v && v["transport"] == s.transport
            && "lanHost" in v && v["lanHost"] == Trim(s.lanHost)
            && "lanFingerprint" in v && v["lanFingerprint"] == Trim(s.lanFingerprint)
            && "lanKey" in v && v["lanKey"] == Trim(s.lanKey)
            && "decode" in v && v["decode"] == s.decode
            && "output" in v && v["output"] == Trim(s.output)
            && "outputKind" in v && v["outputKind"] == Trim(s.outputKind)
            && "rotation" in v && v["rotation"] == Decimal(s.rotation)
            && "mirror" in v && v["mirror"] == (if s.mirror then "true" else "false")
            && "verticalFlip" in v && v["verticalFlip"] == (if s.verticalFlip then "true" else "false")
            && "qualityWidth" in v && v["qualityWidth"] == Decimal(s.quality.width)
            && "qualityHeight" in v && v["qualityHeight"] == Decimal(s.quality.height)
            && "qualityFps" in v && v["qualityFps"] == Decimal(s.quality.fps)
            && "lastConnected" in v && v["lastConnected"] == Decimal(s.lastConnected)
  {
    hide ValuesOf, Trim, Decimal;
    ValuesHas(s, FTransport);
    ValuesHas(s, FLanHost);
    ValuesHas(s, FLanFingerprint);
    ValuesHas(s, FLanKey);
    ValuesHas(s, FDecode);
    ValuesHas(s, FOutput);
    ValuesHas(s, FOutputKind);
    ValuesHas(s, FRotation);
    ValuesHas(s, FMirror);
    ValuesHas(s, FVerticalFlip);
    ValuesHas(s, FQualityWidth);
    ValuesHas(s, FQualityHeight);
    ValuesHas(s, FQualityFps);
    ValuesHas(s, FLastConnected);
  }

  /** MAIN RESULT: the settings that may be saved at all. */
  lemma ValidSettingsAre(s: Settings, build: Build)
    ensures Validate(s, build).Ok? <==>
              && (s.transport == "usb" || s.transport == "lan")
              && (s.lanFingerprint == ""
                  || (|s.lanFingerprint| == 64 && forall c :: c in s.lanFingerprint ==> IsHex(c)))
              && (s.lanKey == "" || (|s.lanKey| == 32 && forall c :: c in s.lanKey ==> IsHex(c)))
              && s.rotation in {0, 90, 180, 270}
              && Valid(s.quality)
              && s.decode in {"auto", "off", "software", "vaapi", "cuda", "d3d11va"}
              && Utf8Length(s.lanHost) <= 4096 && '\0' !in s.lanHost && '\n' !in s.lanHost
              && Utf8Length(s.output) <= 4096 && '\0' !in s.output && '\n' !in s.output
              && (Trim(s.outputKind) == "loopback" || (Trim(s.outputKind) == "pipewire" && build.pipewire))
  {
    hide IsHexOf, FitsOneLine, Trim, Utf8Length, IsHex, Valid;
    HexTexts(s.lanFingerprint, 32);
    HexTexts(s.lanKey, 16);
    OneLineTexts(s.lanHost);
    OneLineTexts(s.output);
  }

  lemma HexTexts(s: string, count: nat)
    ensures IsHexOf(s, count) <==> |s| == 2 * count && forall c :: c in s ==> IsHex(c)
  {
    hide IsHex;
  }

  lemma OneLineTexts(s: string)
    ensures FitsOneLine(s) <==> Utf8Length(s) <= 4096 && '\0' !in s && '\n' !in s
  {
  }

  /** Numbers are written and read in decimal. */
  lemma {:induction false} NumbersAreDecimal(digits: string, d: nat)
    requires d < 10 && DigitsValue(digits).Some?
    ensures DigitsValue("") == Some(0)
    ensures var c := if d == 0 then '0' else if d == 1 then '1' else if d == 2 then '2' else if d == 3 then '3'
                     else if d == 4 then '4' else if d == 5 then '5' else if d == 6 then '6' else if d == 7 then '7'
                     else if d == 8 then '8' else '9';
            DigitsValue(digits + [c]) == Some(10 * DigitsValue(digits).value + d)
  {
    var c := (48 + d) as char;
    assert (digits + [c])[..|digits|] == digits;
  }

  /** Trimming takes the white space off both ends and nothing else. */
  lemma TrimsTheEnds(s: string) returns (from: nat, to: nat)
    ensures from <= to <= |s| && Trim(s) == s[from..to]
    ensures forall i :: 0 <= i < |s| && !(from <= i < to) ==> IsSpace(s[i])
    ensures from < to ==> !IsSpace(s[from]) && !IsSpace(s[to - 1])
  {
    to := EndTrims(s);
    from := StartTrims(s[..to]);
    assert TrimEnd(s) == s[..to];
    assert s[..to][from..] == s[from..to];
    forall i | 0 <= i < |s| && !(from <= i < to) ensures IsSpace(s[i]) {
      if i < from { assert s[i] == s[..to][i]; }
    }
    hide TrimStart, TrimEnd, IsSpace;
  }

  lemma {:induction false} EndTrims(s: string) returns (to: nat)
    ensures to <= |s| && TrimEnd(s) == s[..to] && forall i :: to <= i < |s| ==> IsSpace(s[i])
  {
    if s != "" && IsSpace(s[|s| - 1]) {
      to := EndTrims(s[..|s| - 1]);
      assert s[..|s| - 1][..to] == s[..to];
    } else {
      to := |s|;
    }
  }

  lemma {:induction false} StartTrims(s: string) returns (from: nat)
    ensures from <= |s| && TrimStart(s) == s[from..] && forall i :: 0 <= i < from ==> IsSpace(s[i])
  {
    if s != "" && IsSpace(s[0]) {
      from := StartTrims(s[1..]);
      assert s[1..][from..] == s[from + 1..];
      forall i | 0 <= i < from + 1 ensures IsSpace(s[i]) {
        if i > 0 { assert s[i] == s[1..][i - 1]; }
      }
      from := from + 1;
    } else {
      from := 0;
    }
  }

  // ----- The file -----

  /** MAIN RESULT: the file by its own text. Under [General] a known key before the first '='
      sets its value, with or without quotes; before any section, under another one, or
      behind ';' or '#' it sets nothing. */
  lemma FileIsRead(key: string, value: string)
    requires key in KEYS && Unmarked(value) && Trim(value) == value
    ensures ParseLines(["[General]", key + "=" + value], KEYS) == Ok(map[key := value])
    ensures ParseLines(["[General]", key + "=" + ("\"" + value + "\"")], KEYS) == Ok(map[key := value])
    ensures ParseLines([key + "=" + value], KEYS) == Ok(map[])
    ensures ParseLines(["[Other]", key + "=" + value], KEYS) == Ok(map[])
    ensures ParseLines(["[General]", ";" + (key + "=" + value)], KEYS) == Ok(map[])
    ensures ParseLines(["[General]", "#" + (key + "=" + value)], KEYS) == Ok(map[])
  {
    var bare, quoted := key + "=" + value, key + "=" + ("\"" + value + "\"");
    BareLineSets(key, value, true);
    BareLineSets(key, value, false);
    QuotedLineSets(key, value);
    CommentSetsNothing(";", key, value);
    CommentSetsNothing("#", key, value);
    hide *;
    HeadingDecides("[General]", bare, true);
    HeadingDecides("[General]", quoted, true);
    HeadingDecides("[Other]", bare, false);
    HeadingDecides("[General]", ";" + bare, true);
    HeadingDecides("[General]", "#" + bare, true);
    ParseLinesIs([bare]);
  }

  lemma ParseLinesIs(lines: seq<string>)
    ensures ParseLines(lines, KEYS) == ParseFrom(lines, false, KEYS, map[])
  {
  }

  lemma HeadingDecides(heading: string, line: string, general: bool)
    requires heading == "[General]" || heading == "[Other]"
    requires general <==> heading == "[General]"
    ensures ParseLines([heading, line], KEYS) == ParseFrom([line], general, KEYS, map[])
  {
    assert [heading, line][1..] == [line];
    assert !IsSpace('[') && !IsSpace(']');
    TrimTight(heading);
    hide Trim, IsSpace, Decode;
  }

  function SetIf(set_: bool, key: string, text: string): Values { if set_ then map[key := text] else map[] }

  lemma LineSets(line: string, general: bool, keys: seq<string>, key: string, rest: string, text: string)
    requires Trim(line) == line && line != "" && line[0] != '[' && line[0] != ';' && line[0] != '#'
    requires SplitOnce(line) == Some((key, rest)) && Trim(key) == key && key in keys && Decode(Trim(rest)) == Ok(text)
    ensures ParseFrom([line], general, keys, map[]) == Ok(SetIf(general, key, text))
  {
    hide Trim, SplitOnce, Decode;
    var lines, none: Values := [line], map[];
    assert lines[1..] == [];
    ParseNothing(general, keys, none);
    ParseNothing(general, keys, none[key := text]);
    assert !Opens(line);
    if !general {
      assert ParseFrom(lines, general, keys, none) == ParseFrom([], general, keys, none);
    } else {
      assert ParseFrom(lines, general, keys, none) == ParseFrom([], general, keys, none[key := text]);
    }
  }

  lemma KeyIsPlain(key: string)
    requires key in KEYS
    ensures Plain(key) && key != "" && !IsSpace(key[0]) && !IsSpace(key[|key| - 1])
    ensures key[0] != '[' && key[0] != ';' && key[0] != '#' && forall i :: 0 <= i < |key| ==> key[i] != '='
  {
    hide Name, IsSpace;
    var i :| 0 <= i < |KEYS| && KEYS[i] == key;
    NameIsLetters(FIELDS[i]);
    LettersArePlain(key);
  }

  lemma BareLineSets(key: string, value: string, general: bool)
    requires key in KEYS && Unmarked(value) && Trim(value) == value
    ensures ParseFrom([key + "=" + value], general, KEYS, map[]) == Ok(SetIf(general, key, value))
  {
    hide *;
    var line: string := key + "=" + value;
    KeyIsPlain(key);
    MarksAreInk();
    PlainTextIsItself(value);
    SplitOnceAt(key, value);
    TrimTight(key);
    if value != "" { EndIsInk(value); }
    assert line[0] == key[0] && line[|line| - 1] == if value != "" then value[|value| - 1] else '=';
    TrimTight(line);
    LineSets(line, general, KEYS, key, value, value);
  }

  lemma EndIsInk(s: string)
    requires s != "" && Trim(s) == s
    ensures !IsSpace(s[|s| - 1])
  {
    hide Trim, IsSpace;
    var from, to := TrimsTheEnds(s);
    assert |s[from..to]| == to - from;
  }

  lemma QuotedLineSets(key: string, value: string)
    requires key in KEYS && Unmarked(value)
    ensures ParseFrom([key + "=" + ("\"" + value + "\"")], true, KEYS, map[]) == Ok(map[key := value])
  {
    KeyIsPlain(key);
    PlainTextIsItself(value);
    SettingReads(key, value);
    hide Trim, SplitOnce, Decode, Encode, ParseFrom, Unmarked, Plain;
    LineSets(Setting(key, value), true, KEYS, key, Encode(value), value);
  }

  lemma CommentSetsNothing(mark: string, key: string, value: string)
    requires (mark == ";" || mark == "#") && key in KEYS && Trim(value) == value
    ensures ParseFrom([mark + (key + "=" + value)], true, KEYS, map[]) == Ok(map[])
  {
    hide *;
    var line: string := mark + (key + "=" + value);
    MarksAreInk();
    if value != "" { EndIsInk(value); }
    assert line[|line| - 1] == if value != "" then value[|value| - 1] else '=';
    CommentIsSkipped(line, KEYS);
  }

  lemma MarksAreInk()
    ensures !IsSpace(';') && !IsSpace('#') && !IsSpace('=')
  {
  }

  lemma CommentIsSkipped(line: string, keys: seq<string>)
    requires line != "" && (line[0] == ';' || line[0] == '#') && !IsSpace(line[|line| - 1])
    ensures ParseFrom([line], true, keys, map[]) == Ok(map[])
  {
    hide SplitOnce, Decode, Trim, IsSpace;
    MarksAreInk();
    TrimTight(line);
    var lines, none: Values := [line], map[];
    assert lines[1..] == [];
    ParseNothing(true, keys, none);
    assert !Opens(line);
    assert ParseFrom(lines, true, keys, none) == ParseFrom([], true, keys, none);
  }
}
