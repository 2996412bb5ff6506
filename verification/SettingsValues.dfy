/** The saved settings as text values (host-rs/src/settings.rs:50-215). */
module SettingsValues {
  import opened Basics
  import opened IniText
  import opened ModeResolver
  import opened QualitySwitch
  import opened SettingsFile
  import opened SettingsText

  datatype Warning = InvalidQuality | AboveEdition

  datatype Settings = Settings(
    transport: string, lanHost: string, lanFingerprint: string, lanKey: string, lastConnected: u64,
    decode: string, output: string, outputKind: string, rotation: u16, mirror: bool, verticalFlip: bool,
    quality: Wish, warning: Option<Warning>, clamped: bool)

  datatype SettingsError =
    | BadText(ini: IniError)
    | BadNumber | BadBoolean
    | BadTransport | BadPairing | BadRotation | BadQuality | BadDecoder | BadAddress
    | BadBackend | BackendMissing

  /** What differs between builds: the default output and whether PipeWire is built in. */
  datatype Build = Build(output: string, pipewire: bool)

  function Defaults(build: Build): Settings {
    Settings("usb", "", "", "", 0, "auto", build.output, "loopback", 0, true, false, AUTO, None, false)
  }

  datatype Field =
    | FDecode | FLanFingerprint | FLanHost | FLanKey | FLastConnected | FMirror | FOutput | FOutputKind
    | FQualityFps | FQualityHeight | FQualityWidth | FRotation | FTransport | FVerticalFlip

  function Name(f: Field): string {
    match f
    case FDecode => "decode"
    case FLanFingerprint => "lanFingerprint"
    case FLanHost => "lanHost"
    case FLanKey => "lanKey"
    case FLastConnected => "lastConnected"
    case FMirror => "mirror"
    case FOutput => "output"
    case FOutputKind => "outputKind"
    case FQualityFps => "qualityFps"
    case FQualityHeight => "qualityHeight"
    case FQualityWidth => "qualityWidth"
    case FRotation => "rotation"
    case FTransport => "transport"
    case FVerticalFlip => "verticalFlip"
  }

  /** The order of an ordered map's keys. */
  const FIELDS: seq<Field> := [
    FDecode, FLanFingerprint, FLanHost, FLanKey, FLastConnected, FMirror, FOutput, FOutputKind,
    FQualityFps, FQualityHeight, FQualityWidth, FRotation, FTransport, FVerticalFlip]

  lemma AllFields(f: Field)
    ensures f in FIELDS
  {
    match f {
      case FDecode => assert FIELDS[0] == f;
      case FLanFingerprint => assert FIELDS[1] == f;
      case FLanHost => assert FIELDS[2] == f;
      case FLanKey => assert FIELDS[3] == f;
      case FLastConnected => assert FIELDS[4] == f;
      case FMirror => assert FIELDS[5] == f;
      case FOutput => assert FIELDS[6] == f;
      case FOutputKind => assert FIELDS[7] == f;
      case FQualityFps => assert FIELDS[8] == f;
      case FQualityHeight => assert FIELDS[9] == f;
      case FQualityWidth => assert FIELDS[10] == f;
      case FRotation => assert FIELDS[11] == f;
      case FTransport => assert FIELDS[12] == f;
      case FVerticalFlip => assert FIELDS[13] == f;
    }
  }

  /** Length and first letter already tell the names apart. */
  lemma NamesDiffer(f: Field, g: Field)
    requires Name(f) == Name(g)
    ensures f == g
  {
    assert |Name(f)| == |Name(g)| && Name(f)[0] == Name(g)[0];
  }

  // ----- Numbers and booleans -----

  predicate IsDigit(c: char) { '0' <= c <= '9' }

  function Decimal(n: nat): (s: string)
    ensures s != "" && forall i :: 0 <= i < |s| ==> IsDigit(s[i])
  {
    if n < 10 then [(48 + n) as char] else Decimal(n / 10) + [(48 + n % 10) as char]
  }

  function DigitsValue(s: string): Option<nat> {
    if s == "" then Some(0)
    else
      var last := s[|s| - 1];
      match DigitsValue(s[..|s| - 1])
      case Some(n) => if IsDigit(last) then Some(10 * n + (last as int - 48)) else None
      case None => None
  }

  /** `str::parse` for an unsigned number: one leading plus is allowed, nothing
      else but digits, and the value must fit. */
  function ParseUnsigned(s: string, limit: nat): Option<nat> {
    var digits := if |s| > 1 && s[0] == '+' then s[1..] else s;
    if digits == "" then None
    else
      match DigitsValue(digits)
      case Some(n) => if n < limit then Some(n) else None
      case None => None
  }

  lemma {:induction false} DigitsOfDecimal(n: nat)
    ensures DigitsValue(Decimal(n)) == Some(n)
  {
    var s := Decimal(n);
    if n < 10 {
      assert s[..0] == "";
      assert DigitsValue(s) == Some(10 * 0 + (s[0] as int - 48));
    } else {
      DigitsOfDecimal(n / 10);
      assert s[..|s| - 1] == Decimal(n / 10);
    }
  }

  lemma NumberRoundTrip(n: nat, limit: nat)
    requires n < limit
    ensures ParseUnsigned(Decimal(n), limit) == Some(n)
  {
    DigitsOfDecimal(n);
    assert Decimal(n)[0] != '+';
  }

  function BoolText(b: bool): string { if b then "true" else "false" }

  function ParseBool(s: string): Option<bool> {
    if s == "true" || s == "1" then Some(true)
    else if s == "false" || s == "0" then Some(false)
    else None
  }

  // ----- Values -----

  /** The text a field is saved as. */
  function Text(s: Settings, f: Field): string {
    match f
    case FDecode => s.decode
    case FLanFingerprint => Trim(s.lanFingerprint)
    case FLanHost => Trim(s.lanHost)
    case FLanKey => Trim(s.lanKey)
    case FLastConnected => Decimal(s.lastConnected)
    case FMirror => BoolText(s.mirror)
    case FOutput => Trim(s.output)
    case FOutputKind => Trim(s.outputKind)
    case FQualityFps => Decimal(s.quality.fps)
    case FQualityHeight => Decimal(s.quality.height)
    case FQualityWidth => Decimal(s.quality.width)
    case FRotation => Decimal(s.rotation)
    case FTransport => s.transport
    case FVerticalFlip => BoolText(s.verticalFlip)
  }

  function Keys(fields: seq<Field>): (keys: seq<string>)
    ensures |keys| == |fields| && forall i :: 0 <= i < |keys| ==> keys[i] == Name(fields[i])
  {
    seq(|fields|, i requires 0 <= i < |fields| => Name(fields[i]))
  }

  function ValuesFor(s: Settings, fields: seq<Field>): Values {
    if fields == [] then map[]
    else ValuesFor(s, fields[..|fields| - 1])[Name(fields[|fields| - 1]) := Text(s, fields[|fields| - 1])]
  }

  function ValuesOf(s: Settings): Values { ValuesFor(s, FIELDS) }

  lemma {:induction false} ValuesForHas(s: Settings, fields: seq<Field>)
    ensures forall f :: f in fields ==> Name(f) in ValuesFor(s, fields) && ValuesFor(s, fields)[Name(f)] == Text(s, f)
    ensures forall k :: k in ValuesFor(s, fields) <==> k in Keys(fields)
  {
    hide Name, Text;
    if fields != [] {
      var front, last := fields[..|fields| - 1], fields[|fields| - 1];
      ValuesForHas(s, front);
      assert fields == front + [last];
      assert Keys(fields) == Keys(front) + [Name(last)];
      forall f | f in fields
        ensures Name(f) in ValuesFor(s, fields) && ValuesFor(s, fields)[Name(f)] == Text(s, f)
      {
        if Name(f) == Name(last) { NamesDiffer(f, last); }
      }
    }
  }

  lemma ValuesHas(s: Settings, f: Field)
    ensures Name(f) in ValuesOf(s) && ValuesOf(s)[Name(f)] == Text(s, f)
  {
    hide Name, Text, ValuesFor;
    ValuesForHas(s, FIELDS);
    AllFields(f);
  }

  // ----- Loading -----

  function Get(values: Values, f: Field, otherwise: string): string {
    if Name(f) in values then values[Name(f)] else otherwise
  }

  function GetNumber(values: Values, f: Field, limit: nat): Option<nat>
    requires limit > 0
  {
    if Name(f) in values then ParseUnsigned(values[Name(f)], limit) else Some(0)
  }

  function GetBool(values: Values, f: Field, otherwise: bool): Option<bool> {
    if Name(f) in values then ParseBool(values[Name(f)]) else Some(otherwise)
  }

  /** Three numbers that must all parse and make a well-formed wish; otherwise Auto. */
  function GetQuality(values: Values): Option<Wish> {
    match (GetNumber(values, FQualityWidth, U16_LIMIT), GetNumber(values, FQualityHeight, U16_LIMIT),
           GetNumber(values, FQualityFps, U16_LIMIT))
    case (Some(width), Some(height), Some(fps)) =>
      if Valid(Mode(width, height, fps)) then Some(Mode(width, height, fps)) else None
    case _ => None
  }

  function ClampToEdition(s: Settings): Settings {
    var wish := ClampWish(OSS_CAP_1080P30, s.quality);
    if wish != s.quality then s.(quality := wish, clamped := true, warning := Some(AboveEdition)) else s
  }

  predicate IsHexOf(s: string, count: nat) { |s| == 2 * count && forall i :: 0 <= i < |s| ==> IsHex(s[i]) }

  function Utf8Width(c: char): nat {
    if c as int < 0x80 then 1 else if c as int < 0x800 then 2 else if c as int < 0x1_0000 then 3 else 4
  }

  function Utf8Length(s: string): nat { if s == "" then 0 else Utf8Length(s[..|s| - 1]) + Utf8Width(s[|s| - 1]) }

  predicate FitsOneLine(s: string) {
    Utf8Length(s) <= 4096 && forall i :: 0 <= i < |s| ==> s[i] != '\0' && s[i] != '\n'
  }

  function Validate(s: Settings, build: Build): Result<Settings, SettingsError> {
    if s.transport != "usb" && s.transport != "lan" then Err(BadTransport)
    else if s.lanFingerprint != "" && !IsHexOf(s.lanFingerprint, 32) then Err(BadPairing)
    else if s.lanKey != "" && !IsHexOf(s.lanKey, 16) then Err(BadPairing)
    else if s.rotation != 0 && s.rotation != 90 && s.rotation != 180 && s.rotation != 270 then Err(BadRotation)
    else if !Valid(s.quality) then Err(BadQuality)
    else if s.decode !in {"auto", "off", "software", "vaapi", "cuda", "d3d11va"} then Err(BadDecoder)
    else if !FitsOneLine(s.lanHost) || !FitsOneLine(s.output) then Err(BadAddress)
    else if Trim(s.outputKind) != "loopback" && Trim(s.outputKind) != "pipewire" then Err(BadBackend)
    else if Trim(s.outputKind) == "pipewire" && !build.pipewire then Err(BackendMissing)
    else Ok(s)
  }

  function FromValues(values: Values, build: Build): Result<Settings, SettingsError> {
    var d := Defaults(build);
    match (GetBool(values, FMirror, d.mirror), GetNumber(values, FRotation, U16_LIMIT),
      GetBool(values, FVerticalFlip, d.verticalFlip))
    case (None, _, _) => Err(BadBoolean)
    case (_, None, _) => Err(BadNumber)
    case (_, _, None) => Err(BadBoolean)
    case (Some(mirror), Some(rotation), Some(verticalFlip)) =>
      var quality := GetQuality(values);
      var connected := GetNumber(values, FLastConnected, U64_LIMIT);
      var loaded := Settings(
        Get(values, FTransport, d.transport), Get(values, FLanHost, d.lanHost),
        Get(values, FLanFingerprint, d.lanFingerprint), Get(values, FLanKey, d.lanKey),
        if connected.Some? then connected.value else 0,
        Get(values, FDecode, d.decode), Get(values, FOutput, d.output), Get(values, FOutputKind, d.outputKind),
        rotation, mirror, verticalFlip,
        if quality.Some? then quality.value else AUTO,
        if quality.Some? then None else Some(InvalidQuality), false);
      Validate(ClampToEdition(loaded), build)
  }

  // ----- What a save and a load do to settings -----

  /** The settings a reload gives back: three texts trimmed, the wish within the
      edition, and a warning only when that clamp changed it. */
  function Reloaded(s: Settings): Settings {
    ClampToEdition(s.(lanHost := Trim(s.lanHost), output := Trim(s.output), outputKind := Trim(s.outputKind),
                      warning := None, clamped := false))
  }

  lemma TrimIsWithin(s: string)
    ensures FitsOneLine(s) ==> FitsOneLine(Trim(s))
    ensures Trim(Trim(s)) == Trim(s)
  {
    hide *;
    TrimSettles(s);
    var from, to := TrimIsPart(s);
    FitsPart(s, from, to);
  }

  lemma TrimIsPart(s: string) returns (from: nat, to: nat)
    ensures from <= to <= |s| && Trim(s) == s[from..to]
  {
    hide TrimStart, TrimEnd, IsSpace;
    var e := TrimEnd(s);
    var t := TrimStart(e);
    from, to := |e| - |t|, |e|;
    assert s[..to] == e && e[from..] == t;
    assert s[..to][from..] == s[from..to];
  }

  lemma TrimSettles(s: string)
    ensures Trim(Trim(s)) == Trim(s)
  {
    hide TrimStart, TrimEnd, IsSpace;
    var e := TrimEnd(s);
    var t := TrimStart(e);
    if t == "" {
      TrimOfNothing();
    } else {
      assert t[|t| - 1] == e[|e| - 1];
      TrimTight(t);
    }
  }

  lemma FitsPart(s: string, from: nat, to: nat)
    requires from <= to <= |s|
    ensures FitsOneLine(s) ==> FitsOneLine(s[from..to])
  {
    Utf8OfPrefix(s, to);
    Utf8OfSuffix(s[..to], from);
    assert s[..to][from..] == s[from..to];
  }

  lemma {:induction false} Utf8OfPrefix(s: string, n: nat)
    requires n <= |s|
    ensures Utf8Length(s[..n]) <= Utf8Length(s)
    decreases |s|
  {
    if n < |s| {
      Utf8OfPrefix(s[..|s| - 1], n);
      assert s[..|s| - 1][..n] == s[..n];
    } else {
      assert s[..n] == s;
    }
  }

  lemma {:induction false} Utf8OfSuffix(s: string, n: nat)
    requires n <= |s|
    ensures Utf8Length(s[n..]) <= Utf8Length(s)
    decreases |s|
  {
    if n < |s| {
      Utf8OfSuffix(s[..|s| - 1], n);
      assert s[n..][..|s[n..]| - 1] == s[..|s| - 1][n..];
    }
  }

  lemma HexIsTight(s: string, count: nat)
    requires s == "" || IsHexOf(s, count)
    ensures Trim(s) == s
  {
    hide Trim, TrimStart, TrimEnd;
    if s == "" {
      TrimOfNothing();
    } else {
      assert IsHex(s[0]) && IsHex(s[|s| - 1]);
      TrimTight(s);
    }
  }

  lemma TrimOfNothing()
    ensures Trim("") == ""
  {
  }

  lemma BoolRoundTrip(b: bool)
    ensures ParseBool(BoolText(b)) == Some(b)
  {
  }

  lemma QualityRoundTrip(s: Settings)
    requires Valid(s.quality)
    ensures GetQuality(ValuesOf(s)) == Some(s.quality)
  {
    hide ValuesOf, Name, ParseUnsigned, Decimal;
    ValuesHas(s, FQualityWidth);
    ValuesHas(s, FQualityHeight);
    ValuesHas(s, FQualityFps);
    NumberRoundTrip(s.quality.width, U16_LIMIT);
    NumberRoundTrip(s.quality.height, U16_LIMIT);
    NumberRoundTrip(s.quality.fps, U16_LIMIT);
  }

  lemma ReloadedIsValid(s: Settings, build: Build)
    requires Validate(s, build).Ok?
    ensures Validate(Reloaded(s), build) == Ok(Reloaded(s)) && Valid(s.quality)
  {
    hide Trim, FitsOneLine;
    TrimIsWithin(s.lanHost);
    TrimIsWithin(s.output);
    TrimIsWithin(s.outputKind);
  }

  /** MAIN RESULT: valid settings survive being turned into values and back, up to
      trimming three texts and clamping the wish to the edition. */
  lemma ValuesRoundTrip(s: Settings, build: Build)
    requires Validate(s, build).Ok?
    ensures FromValues(ValuesOf(s), build) == Ok(Reloaded(s))
  {
    hide *;
    ReloadedIsValid(s, build);
    QualityRoundTrip(s);
    TextsRoundTrip(s, build);
    NumbersRoundTrip(s, build);
    LoadsTo(s, build);
  }

  lemma TextsRoundTrip(s: Settings, build: Build)
    requires Validate(s, build).Ok?
    ensures forall f: Field, otherwise: string :: Get(ValuesOf(s), f, otherwise) == Text(s, f)
    ensures Trim(s.lanFingerprint) == s.lanFingerprint && Trim(s.lanKey) == s.lanKey
  {
    hide ValuesOf, Name, Text, Trim, Decimal, BoolText;
    HexIsTight(s.lanFingerprint, 32);
    HexIsTight(s.lanKey, 16);
    forall f: Field, otherwise: string ensures Get(ValuesOf(s), f, otherwise) == Text(s, f) { ValuesHas(s, f); }
  }

  lemma NumbersRoundTrip(s: Settings, build: Build)
    ensures GetNumber(ValuesOf(s), FRotation, U16_LIMIT) == Some(s.rotation as nat)
    ensures GetNumber(ValuesOf(s), FLastConnected, U64_LIMIT) == Some(s.lastConnected as nat)
    ensures forall otherwise :: GetBool(ValuesOf(s), FMirror, otherwise) == Some(s.mirror)
    ensures forall otherwise :: GetBool(ValuesOf(s), FVerticalFlip, otherwise) == Some(s.verticalFlip)
  {
    hide ValuesOf, Name, ParseUnsigned, Decimal, ParseBool, BoolText;
    ValuesHas(s, FRotation);
    ValuesHas(s, FLastConnected);
    ValuesHas(s, FMirror);
    ValuesHas(s, FVerticalFlip);
    NumberRoundTrip(s.rotation, U16_LIMIT);
    NumberRoundTrip(s.lastConnected, U64_LIMIT);
    BoolRoundTrip(s.mirror);
    BoolRoundTrip(s.verticalFlip);
  }

  /** A load assembles the fields into settings and validates them. */
  lemma LoadsTo(s: Settings, build: Build)
    requires forall f: Field, otherwise: string :: Get(ValuesOf(s), f, otherwise) == Text(s, f)
    requires Trim(s.lanFingerprint) == s.lanFingerprint && Trim(s.lanKey) == s.lanKey
    requires GetNumber(ValuesOf(s), FRotation, U16_LIMIT) == Some(s.rotation as nat)
    requires GetNumber(ValuesOf(s), FLastConnected, U64_LIMIT) == Some(s.lastConnected as nat)
    requires forall otherwise :: GetBool(ValuesOf(s), FMirror, otherwise) == Some(s.mirror)
    requires forall otherwise :: GetBool(ValuesOf(s), FVerticalFlip, otherwise) == Some(s.verticalFlip)
    requires GetQuality(ValuesOf(s)) == Some(s.quality)
    ensures FromValues(ValuesOf(s), build) == Validate(Reloaded(s), build)
  {
    hide ValuesOf, Name, Validate, Trim, ClampToEdition, Get, GetNumber, GetBool, GetQuality, Decimal, BoolText;
  }

  /** A second trip changes nothing more, except that the clamp is not reported again. */
  lemma ReloadSettles(s: Settings)
    ensures Reloaded(Reloaded(s)) == Reloaded(s).(warning := None, clamped := false)
  {
    TrimIsWithin(s.lanHost);
    TrimIsWithin(s.output);
    TrimIsWithin(s.outputKind);
    ClampIsAProjection(OSS_CAP_1080P30, s.quality);
    hide Trim, ClampWish;
  }

  // ----- The store -----

  const KEYS: seq<string> := Keys(FIELDS)

  predicate Letters(s: string) { forall i :: 0 <= i < |s| ==> 'a' <= s[i] <= 'z' || 'A' <= s[i] <= 'Z' }

  lemma LettersArePlain(s: string)
    requires Letters(s) && s != ""
    ensures Plain(s)
  {
  }

  lemma FirstNames()
    ensures Letters("decode") && Letters("lanFingerprint") && Letters("lanHost") && Letters("lanKey")
        && Letters("lastConnected")
  {
  }

  lemma MiddleNames()
    ensures Letters("mirror") && Letters("output") && Letters("outputKind") && Letters("qualityFps")
        && Letters("qualityHeight")
  {
  }

  lemma LastNames()
    ensures Letters("qualityWidth") && Letters("rotation") && Letters("transport") && Letters("verticalFlip")
  {
  }

  lemma NameIsLetters(f: Field)
    ensures Letters(Name(f)) && Name(f) != ""
  {
    hide Letters;
    FirstNames();
    MiddleNames();
    LastNames();
  }

  lemma KeysAreProper(s: Settings)
    ensures Proper(KEYS, ValuesOf(s))
  {
    hide Name, Plain, ValuesFor;
    ValuesForHas(s, FIELDS);
    forall k | k in KEYS ensures Plain(k) {
      var i :| 0 <= i < |KEYS| && KEYS[i] == k;
      NameIsLetters(FIELDS[i]);
      LettersArePlain(k);
    }
  }

  /** Reading the user's file: text, then values, then settings. */
  function LoadText(text: string, build: Build): Result<Settings, SettingsError> {
    match ParseLines(Lines(text), KEYS)
    case Ok(values) => FromValues(values, build)
    case Err(e) => Err(BadText(e))
  }

  class Store {
    const build: Build
    var file: string

    constructor (build: Build, file: string)
      ensures this.build == build && this.file == file
    {
      this.build, this.file := build, file;
    }

    /** Invalid settings are refused, and so is a file whose own settings no longer
        load; in both cases the file stays as it was. */
    method Save(settings: Settings) returns (refused: Option<SettingsError>)
      modifies this`file
      ensures refused.Some? <==> Validate(settings, build).Err? || LoadText(old(file), build).Err?
      ensures refused.Some? ==> file == old(file)
      ensures refused.None? ==>
                && file == SavedText(old(file), settings)
                && LoadText(file, build) == Ok(Reloaded(settings))
    {
      hide Validate, FromValues, Lines, ParseFrom, SaveLines, Unlines;
      var checked := Validate(settings, build);
      if checked.Err? { return Some(checked.error); }
      var lines := Lines(file);
      var values := ParseIni(lines, KEYS);
      if values.Err? { return Some(BadText(values.error)); }
      var loaded := FromValues(values.value, build);
      if loaded.Err? { return Some(loaded.error); }
      KeysAreProper(settings);
      var edited := EditLines(lines, KEYS, ValuesOf(settings));
      SavedTextIsRead(file, KEYS, ValuesOf(settings));
      ValuesRoundTrip(settings, build);
      file := Unlines(edited);
      return None;
    }
  }

  function SavedText(text: string, settings: Settings): string {
    KeysAreProper(settings);
    SettingsText.Save(text, KEYS, ValuesOf(settings))
  }
}
