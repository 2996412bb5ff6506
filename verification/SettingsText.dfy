/** The settings file as text: `str::lines` on the way in, a line feed after every
    line on the way out (host-rs/src/settings.rs:332, 374, 470). */
module SettingsText {
  import opened Basics
  import opened IniText
  import opened SettingsFile

  function LineLength(text: string): (n: nat)
    ensures n <= |text| && (n < |text| ==> text[n] == '\n')
    ensures forall i :: 0 <= i < n ==> text[i] != '\n'
  {
    if text == "" || text[0] == '\n' then 0 else 1 + LineLength(text[1..])
  }

  predicate EndsInReturn(line: string) { line != "" && line[|line| - 1] == '\r' }

  /** A carriage return belongs to the line break only when a line feed follows it. */
  function StripReturn(line: string): string {
    if EndsInReturn(line) then line[..|line| - 1] else line
  }

  function Lines(text: string): seq<string>
    decreases |text|
  {
    if text == "" then []
    else
      var n := LineLength(text);
      if n == |text| then [text] else [StripReturn(text[..n])] + Lines(text[n + 1..])
  }

  function Unlines(lines: seq<string>): string {
    if lines == [] then "" else lines[0] + "\n" + Unlines(lines[1..])
  }

  function StripAll(lines: seq<string>): (stripped: seq<string>)
    ensures |stripped| == |lines|
  {
    seq(|lines|, i requires 0 <= i < |lines| => StripReturn(lines[i]))
  }

  predicate OneLine(line: string) { forall i :: 0 <= i < |line| ==> line[i] != '\n' }

  /** The whole edit, text to text. */
  function Save(text: string, keys: seq<string>, values: Values): string
    requires forall k :: k in keys ==> k in values
  {
    Unlines(SaveLines(Lines(text), keys, values))
  }

  lemma LineLengthIs(line: string, rest: string)
    requires OneLine(line)
    ensures LineLength(line + "\n" + rest) == |line|
  {
    var text := line + "\n" + rest;
    var n := LineLength(text);
    assert text[|line|] == '\n';
  }

  lemma {:induction false} LinesOfUnlines(lines: seq<string>)
    requires forall line :: line in lines ==> OneLine(line)
    ensures Lines(Unlines(lines)) == StripAll(lines)
  {
    if lines != [] {
      var text, rest := Unlines(lines), Unlines(lines[1..]);
      LineLengthIs(lines[0], rest);
      assert text[..|lines[0]|] == lines[0] && text[|lines[0]| + 1..] == rest;
      LinesOfUnlines(lines[1..]);
      assert StripAll(lines) == [StripReturn(lines[0])] + StripAll(lines[1..]);
    }
  }

  lemma {:induction false} LinesAreSingle(text: string)
    ensures forall line :: line in Lines(text) ==> OneLine(line)
    decreases |text|
  {
    hide LineLength;
    if text != "" {
      var n := LineLength(text);
      if n < |text| { LinesAreSingle(text[n + 1..]); }
    }
  }

  lemma {:induction false} KeptWithin(lines: seq<string>, general: bool, keys: seq<string>)
    ensures forall line :: line in Kept(lines, general, keys) ==> line in lines
  {
    hide Known, Section;
    if lines != [] {
      KeptWithin(lines[1..], Section(lines[0], general), keys);
      assert lines == [lines[0]] + lines[1..];
    }
  }

  /** An added line is one line and does not end in a carriage return. */
  predicate Clean(line: string) { OneLine(line) && !EndsInReturn(line) }

  lemma SettingIsClean(key: string, value: string)
    requires Plain(key)
    ensures Clean(Setting(key, value))
  {
    hide Encode;
    EncodeIsOneLine(value);
    var line := Setting(key, value);
    forall i | 0 <= i < |line| ensures line[i] != '\n' {
      if i < |key| { assert line[i] == key[i]; } else if i > |key| { assert line[i] == Encode(value)[i - |key| - 1]; }
    }
    assert line[|line| - 1] == Encode(value)[|Encode(value)| - 1];
  }

  lemma {:induction false} AdditionsAreClean(keys: seq<string>, values: Values)
    requires forall k :: k in keys ==> k in values && Plain(k)
    ensures forall line :: line in Additions(keys, values) ==> Clean(line)
  {
    hide Setting, Clean, Plain;
    if keys != [] {
      SettingIsClean(keys[0], values[keys[0]]);
      AdditionsAreClean(keys[1..], values);
    }
  }

  /** The lines a save writes: kept ones, the heading, and clean additions. */
  lemma InsertedFrom(kept: seq<string>, additions: seq<string>)
    ensures forall line :: line in Insert(kept, additions) ==> line in kept || line == GENERAL || line in additions
    ensures forall line :: line in kept ==> line in Insert(kept, additions)
  {
    hide FirstGeneral;
    match FirstGeneral(kept) {
      case Some(i) => assert kept == kept[..i + 1] + kept[i + 1..];
      case None =>
    }
  }

  lemma GeneralIsClean()
    ensures Clean(GENERAL)
  {
    assert GENERAL[|GENERAL| - 1] == ']';
  }

  lemma SavedLines(text: string, keys: seq<string>, values: Values)
    requires Proper(keys, values)
    ensures var saved := SaveLines(Lines(text), keys, values);
            && (forall line :: line in saved ==> OneLine(line))
            && ((forall line :: line in saved ==> !EndsInReturn(line)) <==>
                (forall line :: line in Kept(Lines(text), false, keys) ==> !EndsInReturn(line)))
  {
    hide Lines, Kept, Insert, Additions, Setting;
    LinesAreSingle(text);
    KeptWithin(Lines(text), false, keys);
    InsertedFrom(Kept(Lines(text), false, keys), Additions(keys, values));
    AdditionsAreClean(keys, values);
    GeneralIsClean();
  }

  // ----- A stripped carriage return is invisible -----

  lemma TrimOfStripped(line: string)
    ensures Trim(StripReturn(line)) == Trim(line)
  {
  }

  lemma {:induction false} ParseOfStripped(lines: seq<string>, general: bool, keys: seq<string>, done: Values)
    ensures ParseFrom(StripAll(lines), general, keys, done) == ParseFrom(lines, general, keys, done)
    decreases |lines|
  {
    hide Trim, SplitOnce, Decode, StripReturn;
    if lines != [] {
      TrimOfStripped(lines[0]);
      assert StripAll(lines)[1..] == StripAll(lines[1..]);
      forall g: bool, d: Values { ParseOfStripped(lines[1..], g, keys, d); }
    }
  }

  /** MAIN RESULT: the text a save writes, read back from scratch, gives exactly the
      saved settings - whatever text was there before. */
  lemma SavedTextIsRead(text: string, keys: seq<string>, values: Values)
    requires Proper(keys, values)
    ensures ParseLines(Lines(Save(text, keys, values)), keys) == Ok(values)
  {
    hide Lines, Unlines, SaveLines, ParseFrom, StripAll;
    var saved := SaveLines(Lines(text), keys, values);
    SavedLines(text, keys, values);
    LinesOfUnlines(saved);
    ParseOfStripped(saved, false, keys, map[]);
    SavedIsRead(Lines(text), keys, values);
  }

  // ----- When the text itself is a fixed point -----

  lemma StripCons(lines: seq<string>)
    requires lines != []
    ensures StripAll(lines) == [StripReturn(lines[0])] + StripAll(lines[1..])
  {
  }

  lemma SameLine(line: string, general: bool, keys: seq<string>)
    ensures Section(StripReturn(line), general) == Section(line, general)
    ensures Known(StripReturn(line), general, keys) == Known(line, general, keys)
  {
    TrimOfStripped(line);
    hide Trim;
  }

  lemma {:induction false} KeptOfStripped(lines: seq<string>, general: bool, keys: seq<string>)
    ensures Kept(StripAll(lines), general, keys) == StripAll(Kept(lines, general, keys))
  {
    hide *;
    if lines == [] {
      KeptNone(StripAll(lines), general, keys);
      assert StripAll(lines) == [];
      assert StripAll(Kept(lines, general, keys)) == [];
    } else {
      var now := Section(lines[0], general);
      var rest := Kept(lines[1..], now, keys);
      SameLine(lines[0], general, keys);
      SameLine(lines[0], now, keys);
      StripCons(lines);
      KeptOfStripped(lines[1..], now, keys);
      assert [lines[0]] + lines[1..] == lines;
      KeptCons(lines[0], lines[1..], general, keys);
      KeptCons(StripReturn(lines[0]), StripAll(lines[1..]), general, keys);
      if Known(lines[0], now, keys) {
        assert [] + rest == rest && [] + StripAll(rest) == StripAll(rest);
      } else {
        StripCons([lines[0]] + rest);
        assert ([lines[0]] + rest)[1..] == rest;
      }
    }
  }

  lemma {:induction false} FirstGeneralOfStripped(lines: seq<string>)
    ensures FirstGeneral(StripAll(lines)) == FirstGeneral(lines)
  {
    hide Trim, StripReturn, StripAll;
    if lines != [] {
      TrimOfStripped(lines[0]);
      StripCons(lines);
      FirstGeneralOfStripped(lines[1..]);
    }
  }

  lemma StripConcat(a: seq<string>, b: seq<string>)
    ensures StripAll(a + b) == StripAll(a) + StripAll(b)
  {
    hide StripReturn;
  }

  lemma StripSlices(lines: seq<string>, n: nat)
    requires n <= |lines|
    ensures StripAll(lines[..n]) == StripAll(lines)[..n] && StripAll(lines[n..]) == StripAll(lines)[n..]
  {
    hide StripReturn;
  }

  lemma StripClean(lines: seq<string>)
    requires forall line :: line in lines ==> Clean(line)
    ensures StripAll(lines) == lines
  {
    forall i | 0 <= i < |lines| ensures StripReturn(lines[i]) == lines[i] {
      assert Clean(lines[i]);
    }
  }

  lemma StripAround(kept: seq<string>, n: nat, additions: seq<string>)
    requires n <= |kept| && StripAll(additions) == additions
    ensures StripAll(kept[..n] + additions + kept[n..]) == StripAll(kept)[..n] + additions + StripAll(kept)[n..]
  {
    hide *;
    StripSlices(kept, n);
    StripConcat(kept[..n] + additions, kept[n..]);
    StripConcat(kept[..n], additions);
  }

  lemma StripBefore(kept: seq<string>, heading: string, additions: seq<string>)
    requires StripAll(additions) == additions && StripAll([heading]) == [heading]
    ensures StripAll(kept + [heading] + additions) == StripAll(kept) + [heading] + additions
  {
    hide *;
    StripConcat(kept + [heading], additions);
    StripConcat(kept, [heading]);
  }

  lemma InsertOfStripped(kept: seq<string>, additions: seq<string>)
    requires forall line :: line in additions ==> Clean(line)
    ensures Insert(StripAll(kept), additions) == StripAll(Insert(kept, additions))
  {
    hide FirstGeneral, Trim, StripAll, Clean;
    FirstGeneralOfStripped(kept);
    StripClean(additions);
    GeneralIsClean();
    StripClean([GENERAL]);
    StripBefore(kept, GENERAL, additions);
    if FirstGeneral(kept).Some? { StripAround(kept, FirstGeneral(kept).value + 1, additions); }
  }

  lemma SaveOfStripped(lines: seq<string>, keys: seq<string>, values: Values)
    requires Proper(keys, values)
    ensures SaveLines(StripAll(lines), keys, values) == StripAll(SaveLines(lines, keys, values))
  {
    hide Kept, Insert, Additions, StripAll;
    KeptOfStripped(lines, false, keys);
    AdditionsAreClean(keys, values);
    InsertOfStripped(Kept(lines, false, keys), Additions(keys, values));
  }

  lemma {:induction false} StrippingShortens(lines: seq<string>)
    ensures |Unlines(StripAll(lines))| <= |Unlines(lines)|
    ensures |Unlines(StripAll(lines))| == |Unlines(lines)| <==> forall line :: line in lines ==> !EndsInReturn(line)
  {
    hide StripAll;
    if lines != [] {
      StripCons(lines);
      StrippingShortens(lines[1..]);
      assert lines == [lines[0]] + lines[1..];
      assert |Unlines(lines)| == |lines[0]| + 1 + |Unlines(lines[1..])|;
      assert |Unlines(StripAll(lines))| == |StripReturn(lines[0])| + 1 + |Unlines(StripAll(lines[1..]))|;
    } else {
      assert StripAll(lines) == [];
    }
  }

  lemma StrippingNothing(lines: seq<string>)
    requires forall line :: line in lines ==> !EndsInReturn(line)
    ensures StripAll(lines) == lines
  {
  }

  /** MAIN RESULT: saving the same settings twice leaves the text unchanged exactly
      when no kept line ends in a carriage return; each further save drops one such
      return per line, since `str::lines` takes it for part of the line break. */
  lemma TextIsAFixedPoint(text: string, keys: seq<string>, values: Values)
    requires Proper(keys, values)
    ensures var once := Save(text, keys, values);
            Save(once, keys, values) == once <==>
            forall line :: line in Kept(Lines(text), false, keys) ==> !EndsInReturn(line)
  {
    hide Lines, Unlines, SaveLines, StripAll, Kept;
    var saved := SaveLines(Lines(text), keys, values);
    SavedLines(text, keys, values);
    LinesOfUnlines(saved);
    SaveOfStripped(saved, keys, values);
    SaveIsAFixedPoint(Lines(text), keys, values);
    assert Save(Save(text, keys, values), keys, values) == Unlines(StripAll(saved));
    StrippingShortens(saved);
    if forall line :: line in saved ==> !EndsInReturn(line) { StrippingNothing(saved); }
  }

  lemma OneUnbrokenLine(text: string)
    requires text != "" && OneLine(text)
    ensures Lines(text) == [text]
  {
  }

  lemma OutsideSections(line: string, keys: seq<string>)
    requires !Opens(line)
    ensures Kept([line], false, keys) == [line]
  {
    hide Trim, SplitOnce;
    assert [line][1..] == [];
  }

  /** Such a text: one foreign line that ends in a carriage return of its own. */
  lemma StrayReturnIsLost(keys: seq<string>, values: Values)
    requires Proper(keys, values)
    ensures var once := Save("x\r", keys, values); Save(once, keys, values) != once
  {
    var text := "x\r";
    assert text != "" && text[|text| - 1] == '\r' && OneLine(text);
    hide Save, Lines, Kept, Proper, LineLength, Trim;
    OneUnbrokenLine(text);
    TrimOfStray();
    OutsideSections(text, keys);
    assert text in [text] && EndsInReturn(text);
    TextIsAFixedPoint(text, keys, values);
  }

  lemma TrimOfStray()
    ensures Trim("x\r") == "x"
  {
    var text := "x\r";
    assert StripReturn(text) == text[..1] == "x";
    assert !IsSpace('x');
    hide Trim, IsSpace;
    TrimOfStripped(text);
    TrimTight("x");
  }
}
