/**
  `ConfigManager` in ConfigManager.cs: the settings of config.ini kept as a
  dictionary from "Section.key" to text. The file is read line by line
  (comments, section headers, `key=value` assignments), written back in a
  fixed layout, and read through typed getters that fall back to defaults.
  Files are given as their lines; writing returns the lines to be written.
 */
module Config {
  import opened Wrappers
  import opened Text
  import opened Numbers

  /** What one line of config.ini means once it is trimmed. */
  datatype LineKind =
    | Skip                                    // empty, or a '#' comment
    | Header(section: string)                 // "[Section]"
    | Assignment(key: string, value: string)  // "key = value", split at the first '='
    | Ignored                                 // any other line

  /** The classification in the body of the reading loop of `LoadConfig`. */
  function Classify(line: string): LineKind {
    var t := Trim(line);
    if t == [] || t[0] == '#' then Skip
    else if t[0] == '[' && t[|t| - 1] == ']' then Header(t[1..|t| - 1])
    else if '=' in t then
      IndexOfSpec(t, '=');
      var i := IndexOf(t, '=');
      Assignment(Trim(t[..i]), Trim(t[i + 1..]))
    else Ignored
  }

  /** The dictionary key of `key` read under `section`. */
  function FullKey(section: string, key: string): string {
    if section == [] then key else section + "." + key
  }

  /** What the reading loop carries from line to line. */
  datatype LoadState = LoadState(section: string, values: map<string, string>)

  /** One pass of the reading loop. */
  function Step(s: LoadState, line: string): LoadState {
    match Classify(line)
    case Header(name) => LoadState(name, s.values)
    case Assignment(key, value) => LoadState(s.section, s.values[FullKey(s.section, key) := value])
    case _ => s
  }

  /** The reading loop over `lines`, starting in state `s`. */
  function Run(s: LoadState, lines: seq<string>): LoadState
    decreases |lines|
  {
    if lines == [] then s else Run(Step(s, lines[0]), lines[1..])
  }

  /** The assignments a file makes, read from the start of the file. */
  function Parse(lines: seq<string>): map<string, string> {
    Run(LoadState([], map[]), lines).values
  }

  /** The dictionary after `LoadConfig`: the defaults, overwritten by what the
      file assigns when there is a file. */
  function LoadFile(layout: seq<Section>, file: Option<seq<string>>): map<string, string> {
    match file
    case None => Defaults(layout)
    case Some(lines) => Run(LoadState([], Defaults(layout)), lines).values
  }

  /** `GetValue(key, defaultValue)` on a dictionary. */
  function Lookup(m: map<string, string>, key: string, defaultValue: string): string {
    if key in m then m[key] else defaultValue
  }

  /** Reading continues where it stopped: a file read in two parts. */
  lemma {:induction false} RunAppend(s: LoadState, a: seq<string>, b: seq<string>)
    ensures Run(s, a + b) == Run(Run(s, a), b)
    decreases |a|
  {
    if a != [] {
      assert (a + b)[0] == a[0];
      assert (a + b)[1..] == a[1..] + b;
      RunAppend(Step(s, a[0]), a[1..], b);
    } else {
      assert a + b == b;
    }
  }

  /** Entries present before reading survive unless the file assigns them:
      reading over `m1 + m2` is reading over `m2` with `m1` underneath. */
  lemma {:induction false} RunOver(section: string, m1: map<string, string>, m2: map<string, string>, lines: seq<string>)
    ensures Run(LoadState(section, m1 + m2), lines).section == Run(LoadState(section, m2), lines).section
    ensures Run(LoadState(section, m1 + m2), lines).values == m1 + Run(LoadState(section, m2), lines).values
    decreases |lines|
  {
    if lines != [] {
      match Classify(lines[0])
      case Header(name) =>
        RunOver(name, m1, m2, lines[1..]);
      case Assignment(key, value) =>
        var k := FullKey(section, key);
        assert (m1 + m2)[k := value] == m1 + m2[k := value];
        RunOver(section, m1, m2[k := value], lines[1..]);
      case Skip =>
        RunOver(section, m1, m2, lines[1..]);
      case Ignored =>
        RunOver(section, m1, m2, lines[1..]);
    }
  }

  /** Reading a file over a dictionary `d` keeps every entry of `d` the
      file does not assign. */
  lemma ReadOver(d: map<string, string>, lines: seq<string>)
    ensures Run(LoadState([], d), lines).values == d + Parse(lines)
    ensures d.Keys <= Run(LoadState([], d), lines).values.Keys
  {
    RunOver([], d, map[], lines);
    assert d + map[] == d;
  }

  /** After `LoadConfig` a setting holds the file's value when the file
      assigns it and its default otherwise; nothing from an earlier load
      survives. */
  lemma LoadFileIsDefaultsOverridden(layout: seq<Section>, file: Option<seq<string>>)
    ensures file.None? ==> LoadFile(layout, file) == Defaults(layout)
    ensures file.Some? ==> LoadFile(layout, file) == Defaults(layout) + Parse(file.value)
    ensures Defaults(layout).Keys <= LoadFile(layout, file).Keys
  {
    if file.Some? {
      ReadOver(Defaults(layout), file.value);
    }
  }

  /** A later assignment to the same key replaces the earlier one. */
  lemma LastAssignmentWins(s: LoadState, lines: seq<string>, line: string)
    requires Classify(line).Assignment?
    ensures var before := Run(s, lines);
      Run(s, lines + [line]).values
        == before.values[FullKey(before.section, Classify(line).key) := Classify(line).value]
  {
    RunAppend(s, lines, [line]);
    assert [line][1..] == [];
  }

  // ---------------------------------------------------------------------
  // The settings: `SetDefaultValues`, `CreateDefaultConfig` and `SaveConfig`
  // each spell out the same seventeen settings in the same order and under
  // the same section headers; here that list is written once.

  /** Text with no white space at either end: `Trim` leaves it as it is. */
  predicate IsTrimmed(v: string) {
    v == [] || (!IsWhiteSpace(v[0]) && !IsWhiteSpace(v[|v| - 1]))
  }

  /** A setting name that reads back as itself from `name=value`: no
      surrounding white space, no '=', and not starting like a comment or
      a header. */
  predicate WellFormedName(name: string) {
    name != [] && !IsWhiteSpace(name[0]) && !IsWhiteSpace(name[|name| - 1])
    && name[0] != '#' && name[0] != '[' && '=' !in name
  }

  type Name = n: string | WellFormedName(n) witness "Name"

  /** A default value: every default of the source is a single trimmed word. */
  type Value = v: string | IsTrimmed(v)

  /** One line of a section body: a comment (written after "# "), an empty
      line, or a setting written as `name=value`, with its default. */
  datatype Item = Comment(text: string) | Blank | Entry(name: Name, default: Value)

  /** A section: its header, then its body. */
  datatype Section = Section(name: string, items: seq<Item>)

  /** The sections of config.ini. */
  function ConfigLayout(): seq<Section> {
    [GameSettingsSection(), DisplaySettingsSection(), LearningSettingsSection(), StatisticsSection()]
  }

  // The settings with their defaults, one constant each.
  const LanguageDirectionEntry: Item := Entry("LanguageDirection", "0")
  const DifficultyLevelEntry: Item := Entry("DifficultyLevel", "A1")
  const MaxErrorsPerLevelEntry: Item := Entry("MaxErrorsPerLevel", "3")
  const ShowHintsEntry: Item := Entry("ShowHints", "true")
  const SoundEnabledEntry: Item := Entry("SoundEnabled", "true")
  const MusicEnabledEntry: Item := Entry("MusicEnabled", "true")
  const ThemeEntry: Item := Entry("Theme", "Light")
  const FontSizeEntry: Item := Entry("FontSize", "14")
  const ShowProgressBarEntry: Item := Entry("ShowProgressBar", "true")
  const ShowCharacterInfoEntry: Item := Entry("ShowCharacterInfo", "true")
  const RepeatFailedWordsEntry: Item := Entry("RepeatFailedWords", "true")
  const RandomizeWordOrderEntry: Item := Entry("RandomizeWordOrder", "true")
  const ShowWordFrequencyEntry: Item := Entry("ShowWordFrequency", "true")
  const PracticeModeEntry: Item := Entry("PracticeMode", "false")
  const TotalWordsLearnedEntry: Item := Entry("TotalWordsLearned", "0")
  const TotalTimeSpentEntry: Item := Entry("TotalTimeSpent", "0")
  const StreakDaysEntry: Item := Entry("StreakDays", "0")

  function GameSettingsSection(): Section {
    Section("GameSettings", [
      Comment("Sprach-Einstellungen"),
      LanguageDirectionEntry,
      Comment("0 = Deutsch → Englisch, 1 = Englisch → Deutsch"),
      Blank,
      Comment("Schwierigkeitsstufen (A1, A2, B1, B2, C1, C2)"),
      DifficultyLevelEntry,
      Blank,
      Comment("Spiel-Einstellungen"),
      MaxErrorsPerLevelEntry,
      ShowHintsEntry,
      SoundEnabledEntry,
      MusicEnabledEntry,
      Blank])
  }

  function DisplaySettingsSection(): Section {
    Section("DisplaySettings", [
      Comment("UI-Einstellungen"),
      ThemeEntry,
      FontSizeEntry,
      ShowProgressBarEntry,
      ShowCharacterInfoEntry,
      Blank])
  }

  function LearningSettingsSection(): Section {
    Section("LearningSettings", [
      Comment("Lern-Einstellungen"),
      RepeatFailedWordsEntry,
      RandomizeWordOrderEntry,
      ShowWordFrequencyEntry,
      PracticeModeEntry,
      Blank])
  }

  /** The last section; the file ends after its last entry. */
  function StatisticsSection(): Section {
    Section("Statistics", [
      Comment("Statistiken (werden automatisch verwaltet)"),
      TotalWordsLearnedEntry,
      TotalTimeSpentEntry,
      StreakDaysEntry])
  }

  /** A setting with the section it is written under. */
  datatype Setting = Setting(section: string, name: Name, default: Value)

  /** The settings of a section body, in order. */
  function ItemSettings(section: string, items: seq<Item>): seq<Setting> {
    if items == [] then []
    else
      var last := items[|items| - 1];
      ItemSettings(section, items[..|items| - 1]) + if last.Entry? then [Setting(section, last.name, last.default)] else []
  }

  /** The settings of a layout, in order. */
  function LayoutSettings(layout: seq<Section>): seq<Setting> {
    if layout == [] then []
    else
      var last := layout[|layout| - 1];
      LayoutSettings(layout[..|layout| - 1]) + ItemSettings(last.name, last.items)
  }

  /** The dictionary keys of some settings. */
  function KeysOf(settings: seq<Setting>): set<string> {
    set s | s in settings :: FullKey(s.section, s.name)
  }

  /** The keys `SaveConfig` writes. */
  function KnownKeys(layout: seq<Section>): set<string> {
    KeysOf(LayoutSettings(layout))
  }

  /** `m` after assigning each setting's default to its key, in order. */
  function Assign(m: map<string, string>, settings: seq<Setting>): map<string, string> {
    if settings == [] then m
    else
      var s := settings[|settings| - 1];
      Assign(m, settings[..|settings| - 1])[FullKey(s.section, s.name) := s.default]
  }

  /** `SetDefaultValues`: the dictionary holding every default. */
  function Defaults(layout: seq<Section>): map<string, string> {
    Assign(map[], LayoutSettings(layout))
  }

  lemma KeysOfAppend(a: seq<Setting>, b: seq<Setting>)
    ensures KeysOf(a + b) == KeysOf(a) + KeysOf(b)
  {
    assert forall s :: s in a + b <==> s in a || s in b;
  }

  /** Assigning settings adds exactly their keys. */
  lemma {:induction false} AssignKeys(m: map<string, string>, settings: seq<Setting>)
    ensures Assign(m, settings).Keys == m.Keys + KeysOf(settings)
    decreases |settings|
  {
    if settings != [] {
      var init, s := settings[..|settings| - 1], settings[|settings| - 1];
      AssignKeys(m, init);
      assert settings == init + [s];
    }
  }

  /** Every value in the dictionary reads back unchanged through `Trim`. */
  predicate TrimmedValues(m: map<string, string>) {
    forall k | k in m :: Trim(m[k]) == m[k]
  }

  /** Assigning defaults keeps all values trimmed. */
  lemma {:induction false} AssignTrimmed(m: map<string, string>, settings: seq<Setting>)
    requires TrimmedValues(m)
    ensures TrimmedValues(Assign(m, settings))
    decreases |settings|
  {
    if settings != [] {
      AssignTrimmed(m, settings[..|settings| - 1]);
      TrimSpec(settings[|settings| - 1].default);
    }
  }

  /** The defaults are exactly the settings `SaveConfig` writes, and none of
      them has white space to trim. */
  lemma DefaultsCoverKnownKeys(layout: seq<Section>)
    ensures Defaults(layout).Keys == KnownKeys(layout)
    ensures TrimmedValues(Defaults(layout))
  {
    AssignKeys(map[], LayoutSettings(layout));
    AssignTrimmed(map[], LayoutSettings(layout));
  }

  /** The lines `CreateDefaultConfig` writes: the `SaveConfig` layout filled
      with the default values. */
  function DefaultConfigLines(layout: seq<Section>): seq<string> {
    Render(layout, Defaults(layout))
  }

  /** The line an item becomes; an entry shows the value stored under its
      full key, or nothing when there is none. */
  function RenderItem(section: string, item: Item, vals: map<string, string>): string {
    match item
    case Comment(text) => "# " + text
    case Blank => []
    case Entry(name, _) => name + "=" + Lookup(vals, FullKey(section, name), [])
  }

  function RenderItems(section: string, items: seq<Item>, vals: map<string, string>): (lines: seq<string>)
    ensures |lines| == |items|
  {
    if items == [] then []
    else RenderItems(section, items[..|items| - 1], vals) + [RenderItem(section, items[|items| - 1], vals)]
  }

  function RenderSection(s: Section, vals: map<string, string>): seq<string> {
    ["[" + s.name + "]"] + RenderItems(s.name, s.items, vals)
  }

  /** The lines of a file written in `layout` from the values `vals`. */
  function Render(layout: seq<Section>, vals: map<string, string>): seq<string> {
    if layout == [] then [] else Render(layout[..|layout| - 1], vals) + RenderSection(layout[|layout| - 1], vals)
  }

  /** A comment line is skipped. */
  lemma ClassifyComment(text: string)
    ensures Classify("# " + text) == Skip
  {
    var line := "# " + text;
    TrimStartSpec(line);
    assert TrimStart(line) == line;
    TrimEndSpec(line);
  }

  /** A header line reads back as its section name. */
  lemma ClassifyHeader(name: string)
    ensures Classify("[" + name + "]") == Header(name)
  {
    var line := "[" + name + "]";
    TrimSpec(line);
    assert line[1..|line| - 1] == name;
  }

  /** Trimming an entry line only drops white space after the value. */
  lemma TrimEntryLine(name: string, value: string)
    requires WellFormedName(name)
    ensures var line := name + "=" + value;
      var t := Trim(line);
      |name| < |t| <= |line| && t == line[..|t|] && IsBlank(line[|t|..])
  {
    var line := name + "=" + value;
    assert line[0] == name[0];
    TrimStartSpec(line);
    assert TrimStart(line) == line;
    TrimEndSpec(line);
    var t := TrimEnd(line);
    assert !IsWhiteSpace(line[|name|]);
  }

  /** The first '=' of `name=v` is the one after the name. */
  lemma SplitAtName(name: string, v: string)
    requires WellFormedName(name)
    ensures var t := name + "=" + v;
      IndexOf(t, '=') == |name| && t[..|name|] == name && t[|name| + 1..] == v
  {
    var t := name + "=" + v;
    assert t[..|name|] == name;
    assert t[|name| + 1..] == v;
    assert t[|name|] == '=';
    IndexOfSpec(t, '=');
  }

  /** An entry line reads back as its name and its trimmed value. */
  lemma ClassifyEntry(name: string, value: string)
    requires WellFormedName(name)
    ensures Classify(name + "=" + value) == Assignment(name, Trim(value))
  {
    var line := name + "=" + value;
    TrimEntryLine(name, value);
    var t := Trim(line);
    var n := |t| - |name| - 1;
    assert t == name + "=" + value[..n] by {
      assert line[..|t|] == name + "=" + value[..n];
    }
    SplitAtName(name, value[..n]);
    assert t[0] == name[0];
    TrimSpec(name);
    assert value[n..] == line[|t|..];
    TrimBlankTail(value, n);
  }

  /** The values a layout writes, as they read back: each written key with
      its trimmed value (a missing value is written as empty text). */
  function Written(keys: set<string>, vals: map<string, string>): map<string, string> {
    map k | k in keys :: Trim(Lookup(vals, k, []))
  }

  /** Writing one more key adds it with its trimmed value. */
  lemma WrittenAdd(m: map<string, string>, keys: set<string>, k: string, vals: map<string, string>)
    ensures (m + Written(keys, vals))[k := Trim(Lookup(vals, k, []))] == m + Written(keys + {k}, vals)
  {
  }

  lemma WrittenUnion(m: map<string, string>, k1: set<string>, k2: set<string>, vals: map<string, string>)
    ensures m + Written(k1, vals) + Written(k2, vals) == m + Written(k1 + k2, vals)
  {
  }

  /** Reading back one line of a section body. */
  lemma StepItem(section: string, m: map<string, string>, item: Item, vals: map<string, string>)
    ensures Step(LoadState(section, m), RenderItem(section, item, vals))
      == if item.Entry? then
           var k := FullKey(section, item.name);
           LoadState(section, m[k := Trim(Lookup(vals, k, []))])
         else LoadState(section, m)
  {
    match item
    case Comment(text) =>
      ClassifyComment(text);
    case Blank =>
      assert Classify([]) == Skip;
    case Entry(name, _) =>
      ClassifyEntry(name, Lookup(vals, FullKey(section, name), []));
  }

  /** Reading one more line is one more step. */
  lemma RunSnoc(s: LoadState, lines: seq<string>, line: string)
    ensures Run(s, lines + [line]) == Step(Run(s, lines), line)
  {
    RunAppend(s, lines, [line]);
    assert [line][1..] == [];
  }

  /** The keys a section body writes, taking its last item off. */
  lemma ItemKeysLast(section: string, items: seq<Item>)
    requires items != []
    ensures var item := items[|items| - 1];
      KeysOf(ItemSettings(section, items))
        == KeysOf(ItemSettings(section, items[..|items| - 1])) + if item.Entry? then {FullKey(section, item.name)} else {}
  {
    var item := items[|items| - 1];
    var settings := if item.Entry? then [Setting(section, item.name, item.default)] else [];
    KeysOfAppend(ItemSettings(section, items[..|items| - 1]), settings);
  }

  /** Reading back a section body: every entry assigns its trimmed value,
      comments and blank lines leave everything as it was. */
  lemma {:induction false} RunItems(section: string, m: map<string, string>, items: seq<Item>, vals: map<string, string>)
    ensures Run(LoadState(section, m), RenderItems(section, items, vals))
      == LoadState(section, m + Written(KeysOf(ItemSettings(section, items)), vals))
    decreases |items|
  {
    if items == [] {
      assert m + Written({}, vals) == m;
    } else {
      var init, item := items[..|items| - 1], items[|items| - 1];
      var k0 := KeysOf(ItemSettings(section, init));
      RunSnoc(LoadState(section, m), RenderItems(section, init, vals), RenderItem(section, item, vals));
      RunItems(section, m, init, vals);
      StepItem(section, m + Written(k0, vals), item, vals);
      ItemKeysLast(section, items);
      if item.Entry? {
        WrittenAdd(m, k0, FullKey(section, item.name), vals);
      } else {
        assert k0 + {} == k0;
      }
    }
  }

  /** `SaveConfig` and the reading loop agree: reading a file written in a
      layout assigns exactly the keys the layout writes, each
      with its trimmed value, whatever the values and the state before. */
  lemma {:induction false} RunRender(s: LoadState, layout: seq<Section>, vals: map<string, string>)
    ensures Run(s, Render(layout, vals)).values == s.values + Written(KeysOf(LayoutSettings(layout)), vals)
    decreases |layout|
  {
    if layout == [] {
      assert s.values + Written({}, vals) == s.values;
    } else {
      var init, sec := layout[..|layout| - 1], layout[|layout| - 1];
      var header := "[" + sec.name + "]";
      var body := RenderItems(sec.name, sec.items, vals);
      assert Render(layout, vals) == Render(init, vals) + ([header] + body);
      RunAppend(s, Render(init, vals), [header] + body);
      RunRender(s, init, vals);
      var k1 := KeysOf(LayoutSettings(init));
      var mid := Run(s, Render(init, vals));
      RunAppend(mid, [header], body);
      ClassifyHeader(sec.name);
      assert Run(mid, [header]) == LoadState(sec.name, mid.values);
      RunItems(sec.name, mid.values, sec.items, vals);
      var k2 := KeysOf(ItemSettings(sec.name, sec.items));
      KeysOfAppend(LayoutSettings(init), ItemSettings(sec.name, sec.items));
      WrittenUnion(s.values, k1, k2, vals);
    }
  }

  /** Reading back every key of a dictionary whose values are trimmed gives
      the dictionary itself. */
  lemma WrittenAll(m: map<string, string>)
    requires TrimmedValues(m)
    ensures Written(m.Keys, m) == m
  {
  }

  /** The file `CreateDefaultConfig` writes reads back as the defaults, so a
      first start and every later start with that file see the same settings. */
  lemma DefaultFileReadsAsDefaults(layout: seq<Section>)
    ensures Parse(DefaultConfigLines(layout)) == Defaults(layout)
    ensures LoadFile(layout, Some(DefaultConfigLines(layout))) == LoadFile(layout, None)
  {
    RunRender(LoadState([], map[]), layout, Defaults(layout));
    DefaultsCoverKnownKeys(layout);
    WrittenAll(Defaults(layout));
    assert map[] + Defaults(layout) == Defaults(layout);
    LoadFileIsDefaultsOverridden(layout, Some(DefaultConfigLines(layout)));
  }

  /** Saving and loading again keeps exactly the settings of the layout, each
      with its trimmed value; keys outside the layout are dropped. */
  lemma SaveThenLoad(layout: seq<Section>, vals: map<string, string>)
    ensures LoadFile(layout, Some(Render(layout, vals))) == Written(KnownKeys(layout), vals)
  {
    var w := Written(KnownKeys(layout), vals);
    var lines := Render(layout, vals);
    ParseRender(layout, vals);
    LoadFileIsDefaultsOverridden(layout, Some(lines));
    DefaultsCoverKnownKeys(layout);
    OverrideAll(Defaults(layout), w);
  }

  /** Reading a written file on its own gives the written values. */
  lemma ParseRender(layout: seq<Section>, vals: map<string, string>)
    ensures Parse(Render(layout, vals)) == Written(KnownKeys(layout), vals)
  {
    RunRender(LoadState([], map[]), layout, vals);
    assert map[] + Written(KnownKeys(layout), vals) == Written(KnownKeys(layout), vals);
  }

  /** Overriding every key of a dictionary leaves only the new values. */
  lemma OverrideAll(d: map<string, string>, w: map<string, string>)
    requires d.Keys <= w.Keys
    ensures d + w == w
  {
  }

  /** A dictionary holding exactly the layout's keys with trimmed values, such
      as the one a loaded default file gives, survives saving and loading. */
  lemma SaveThenLoadExact(layout: seq<Section>, vals: map<string, string>)
    requires vals.Keys == KnownKeys(layout) && TrimmedValues(vals)
    ensures LoadFile(layout, Some(Render(layout, vals))) == vals
  {
    SaveThenLoad(layout, vals);
    WrittenAll(vals);
  }

  // ---------------------------------------------------------------------
  // The typed getters.

  /** `GetBoolValue(key, defaultValue)`: the stored text read by
      `bool.TryParse`; a missing key reads as the default's lower-case text,
      text that does not parse gives the default. */
  function BoolValue(m: map<string, string>, key: string, defaultValue: bool): bool {
    match TryParseBool(Lookup(m, key, ToLower(BoolToString(defaultValue))))
    case Some(b) => b
    case None => defaultValue
  }

  /** `GetIntValue(key, defaultValue)`: the stored text read by `int.TryParse`;
      a missing key reads as the default's text, text that does not parse
      gives the default. */
  function IntValue(m: map<string, string>, key: string, defaultValue: Int32): Int32 {
    match TryParseInt(Lookup(m, key, IntToString(defaultValue)))
    case Some(n) => n
    case None => defaultValue
  }

  /** A missing key gives the default, and so does a value that is not a
      number; a value written by `ToString` reads back as itself. */
  lemma IntValueSpec(m: map<string, string>, key: string, defaultValue: Int32, n: Int32)
    ensures key !in m ==> IntValue(m, key, defaultValue) == defaultValue
    ensures key in m && TryParseInt(m[key]).None? ==> IntValue(m, key, defaultValue) == defaultValue
    ensures IntValue(m[key := IntToString(n)], key, defaultValue) == n
  {
    IntToStringRoundTrip(defaultValue);
    IntToStringRoundTrip(n);
  }

  /** A missing key gives the default, and so does a value that is not a
      boolean; a value written by `ToString`, in either case, reads back as
      itself. */
  lemma BoolValueSpec(m: map<string, string>, key: string, defaultValue: bool, b: bool)
    ensures key !in m ==> BoolValue(m, key, defaultValue) == defaultValue
    ensures key in m && TryParseBool(m[key]).None? ==> BoolValue(m, key, defaultValue) == defaultValue
    ensures BoolValue(m[key := BoolToString(b)], key, defaultValue) == b
    ensures BoolValue(m[key := ToLower(BoolToString(b))], key, defaultValue) == b
  {
    BoolToStringRoundTrip(defaultValue);
    BoolToStringRoundTrip(b);
  }

  /** The settings read as numbers, with the default each getter passes. */
  datatype IntSetting = LanguageDirection | MaxErrorsPerLevel | FontSize | TotalWordsLearned | TotalTimeSpent | StreakDays
  {
    function Key(): string {
      match this
      case LanguageDirection => "GameSettings.LanguageDirection"
      case MaxErrorsPerLevel => "GameSettings.MaxErrorsPerLevel"
      case FontSize => "DisplaySettings.FontSize"
      case TotalWordsLearned => "Statistics.TotalWordsLearned"
      case TotalTimeSpent => "Statistics.TotalTimeSpent"
      case StreakDays => "Statistics.StreakDays"
    }

    function Fallback(): Int32 {
      match this
      case MaxErrorsPerLevel => 3
      case FontSize => 14
      case _ => 0
    }
  }

  /** The settings read as booleans, with the default each getter passes. */
  datatype BoolSetting = ShowHints | SoundEnabled | MusicEnabled | ShowProgressBar | ShowCharacterInfo
    | RepeatFailedWords | RandomizeWordOrder | ShowWordFrequency | PracticeMode
  {
    function Key(): string {
      match this
      case ShowHints => "GameSettings.ShowHints"
      case SoundEnabled => "GameSettings.SoundEnabled"
      case MusicEnabled => "GameSettings.MusicEnabled"
      case ShowProgressBar => "DisplaySettings.ShowProgressBar"
      case ShowCharacterInfo => "DisplaySettings.ShowCharacterInfo"
      case RepeatFailedWords => "LearningSettings.RepeatFailedWords"
      case RandomizeWordOrder => "LearningSettings.RandomizeWordOrder"
      case ShowWordFrequency => "LearningSettings.ShowWordFrequency"
      case PracticeMode => "LearningSettings.PracticeMode"
    }

    function Fallback(): bool {
      !this.PracticeMode?
    }
  }

  /** The settings read as text, with the default each getter passes. */
  datatype TextSetting = DifficultyLevel | Theme
  {
    function Key(): string {
      match this
      case DifficultyLevel => "GameSettings.DifficultyLevel"
      case Theme => "DisplaySettings.Theme"
    }

    function Fallback(): string {
      match this
      case DifficultyLevel => "A1"
      case Theme => "Light"
    }
  }

  // ---------------------------------------------------------------------
  // The store.

  /** `ConfigManager`: the dictionary of settings. The source keeps it in a
      static field; here it is an object. */
  class ConfigStore {
    /** The layout `SaveConfig` and `CreateDefaultConfig` write and whose
        defaults `SetDefaultValues` assigns: always `ConfigLayout()`. */
    const layout: seq<Section>
    var values: map<string, string>
    /** The config.ini the constructor created because none existed, if any. */
    var createdFile: Option<seq<string>>

    /** The static constructor: an empty dictionary, then `LoadConfig`, whose
        default file is written when there was no file. */
    constructor (file: Option<seq<string>>)
      ensures layout == ConfigLayout()
      ensures values == LoadFile(layout, file)
      ensures createdFile == if file.None? then Some(DefaultConfigLines(layout)) else None
    {
      layout := ConfigLayout();
      values := map[];
      createdFile := None;
      new;
      createdFile := LoadConfig(file);
    }

    /** `SetDefaultValues`: assigns every default, keeping other keys. */
    method SetDefaultValues()
      modifies this
      ensures values == old(values) + Defaults(layout)
    {
      values := values + Defaults(layout);
    }

    /** `LoadConfig`: clears the dictionary, assigns the defaults, then reads
        the file line by line when there is one; when there is none it
        returns the default file to be created. */
    method LoadConfig(file: Option<seq<string>>) returns (created: Option<seq<string>>)
      modifies this
      ensures values == LoadFile(layout, file)
      ensures created == if file.None? then Some(DefaultConfigLines(layout)) else None
    {
      values := map[];
      SetDefaultValues();
      assert values == Defaults(layout);
      if file.None? {
        return Some(DefaultConfigLines(layout));
      }
      var lines := file.value;
      var section := "";
      var i := 0;
      while i < |lines|
        invariant 0 <= i <= |lines|
        invariant Run(LoadState(section, values), lines[i..]) == Run(LoadState([], Defaults(layout)), lines)
      {
        assert lines[i..][1..] == lines[i + 1..];
        var t := Trim(lines[i]);
        if t == [] || t[0] == '#' {
        } else if t[0] == '[' && t[|t| - 1] == ']' {
          section := t[1..|t| - 1];
        } else if '=' in t {
          IndexOfSpec(t, '=');
          var eq := IndexOf(t, '=');
          var key := Trim(t[..eq]);
          var value := Trim(t[eq + 1..]);
          values := values[FullKey(section, key) := value];
        }
        i := i + 1;
      }
      assert lines[i..] == [];
      created := None;
    }

    /** `SaveConfig`: the lines written, in the fixed layout. They read back
        as the layout's settings with their current (trimmed) values. */
    method SaveConfig() returns (lines: seq<string>)
      ensures lines == Render(layout, values)
      ensures LoadFile(layout, Some(lines)) == Written(KnownKeys(layout), values)
    {
      lines := Render(layout, values);
      SaveThenLoad(layout, values);
    }

    /** `GetValue(key, defaultValue)`. */
    method GetValue(key: string, defaultValue: string) returns (r: string)
      ensures key in values ==> r == values[key]
      ensures key !in values ==> r == defaultValue
    {
      r := if key in values then values[key] else defaultValue;
    }

    /** `SetValue(key, value)`: later reads of `key` see `value`, other keys
        are unchanged. */
    method SetValue(key: string, value: string)
      modifies this
      ensures values == old(values)[key := value]
    {
      values := values[key := value];
    }

    /** `GetBoolValue(key, defaultValue)`. */
    method GetBoolValue(key: string, defaultValue: bool) returns (r: bool)
      ensures r == BoolValue(values, key, defaultValue)
      ensures key !in values ==> r == defaultValue
    {
      var text := GetValue(key, ToLower(BoolToString(defaultValue)));
      BoolValueSpec(values, key, defaultValue, defaultValue);
      match TryParseBool(text)
      case Some(b) => r := b;
      case None => r := defaultValue;
    }

    /** `GetIntValue(key, defaultValue)`. */
    method GetIntValue(key: string, defaultValue: Int32) returns (r: Int32)
      ensures r == IntValue(values, key, defaultValue)
      ensures key !in values ==> r == defaultValue
    {
      var text := GetValue(key, IntToString(defaultValue));
      IntValueSpec(values, key, defaultValue, defaultValue);
      match TryParseInt(text)
      case Some(n) => r := n;
      case None => r := defaultValue;
    }

    /** The numeric getters (`LanguageDirection`, `FontSize`, ...). */
    method GetInt(setting: IntSetting) returns (r: Int32)
      ensures r == IntValue(values, setting.Key(), setting.Fallback())
    {
      r := GetIntValue(setting.Key(), setting.Fallback());
    }

    /** The boolean getters (`ShowHints`, `PracticeMode`, ...). */
    method GetBool(setting: BoolSetting) returns (r: bool)
      ensures r == BoolValue(values, setting.Key(), setting.Fallback())
    {
      r := GetBoolValue(setting.Key(), setting.Fallback());
    }

    /** The text getters (`DifficultyLevel`, `Theme`). */
    method GetText(setting: TextSetting) returns (r: string)
      ensures r == Lookup(values, setting.Key(), setting.Fallback())
    {
      r := GetValue(setting.Key(), setting.Fallback());
    }
  }
}
