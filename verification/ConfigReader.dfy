/** The reader of `log.config`, whole-file patching, and what the two promise each other. */
module ConfigReader {
  import opened Prelude
  import opened Text
  import opened ConfigLines
  import opened ConfigPatch
  import opened ConfigSections

  // The reader.

  type Table = map<string, map<string, string>>

  datatype Reader = Reader(table: Table, active: Option<string>)

  function SettingsOf(table: Table, name: string): map<string, string> {
    if name in table then table[name] else map[]
  }

  function ReadLine(r: Reader, line: string): Reader {
    if IsHeader(line) then
      var name := HeaderName(line);
      Reader(r.table[name := SettingsOf(r.table, name)], Some(name))
    else if r.active.Some? && ReadKey(line).Some? then
      var name := r.active.value;
      r.(table := r.table[name := SettingsOf(r.table, name)[ReadKey(line).value := ReadValue(line)]])
    else r
  }

  function ReadLines(r: Reader, lines: seq<string>): Reader
    decreases lines
  {
    if lines == [] then r else ReadLines(ReadLine(r, lines[0]), lines[1..])
  }

  const FRESH_READER := Reader(map[], None)

  function SettingIs(table: Table, component: string, key: string, expected: string): bool {
    && Lower(key) in SettingsOf(table, component)
    && SameIgnoringCase(SettingsOf(table, component)[Lower(key)], expected)
  }

  /** `ComponentLoggingStatus::enabled`. */
  predicate Enabled(table: Table, component: string) {
    && component in table
    && SettingIs(table, component, "LogLevel", "1")
    && SettingIs(table, component, "FilePrinting", "true")
    && (component == "Power" ==> SettingIs(table, component, "Verbose", "1"))
  }

  method ParseSections(lines: seq<string>) returns (table: Table)
    ensures table == ReadLines(FRESH_READER, lines).table
  {
    hide IsHeader, HeaderName, ReadKey, ReadValue;
    table := map[];
    var active: Option<string> := None;
    for i := 0 to |lines|
      invariant ReadLines(Reader(table, active), lines[i..]) == ReadLines(FRESH_READER, lines)
    {
      assert lines[i..][1..] == lines[i + 1..];
      var line := lines[i];
      if IsHeader(line) {
        var name := HeaderName(line);
        table := table[name := SettingsOf(table, name)];
        active := Some(name);
      } else if active.Some? && ReadKey(line).Some? {
        var name := active.value;
        table := table[name := SettingsOf(table, name)[ReadKey(line).value := ReadValue(line)]];
      }
    }
  }

  lemma {:induction false} ReadConcat(r: Reader, a: seq<string>, b: seq<string>)
    ensures ReadLines(r, a + b) == ReadLines(ReadLines(r, a), b)
    decreases a
  {
    hide ReadLine;
    if a == [] {
      assert a + b == b;
    } else {
      assert (a + b)[0] == a[0] && (a + b)[1..] == a[1..] + b;
      ReadConcat(ReadLine(r, a[0]), a[1..], b);
    }
  }

  // What is read from patched sections.

  predicate Holds(table: Table, name: string, key: string, value: string) {
    Lower(key) in SettingsOf(table, name) && SettingsOf(table, name)[Lower(key)] == value
  }

  lemma {:induction false} ReadPreamble(r: Reader, run: seq<string>)
    requires r.active.None? && NoHeaders(run)
    ensures ReadLines(r, run) == r
    decreases run
  {
    hide IsHeader, HeaderName, ReadKey, ReadValue;
    if run != [] {
      ReadPreamble(r, run[1..]);
    }
  }

  /** Assignments in a section change only that section; the last assignment of a key wins. */
  lemma {:induction false} ReadRun(r: Reader, run: seq<string>, name: string, key: string, value: string)
    requires r.active.Some? && r.active.value in r.table && NoHeaders(run) && PlainWord(key) && PlainWord(value)
    requires r.active.value == name ==> forall i | 0 <= i < |run| && Assigns(run[i], key) :: IsSetting(run[i], key, value)
    ensures var after := ReadLines(r, run);
      && after.active == r.active && after.table.Keys == r.table.Keys
      && (r.active.value != name ==> SettingsOf(after.table, name) == SettingsOf(r.table, name))
      && (r.active.value == name && (Holds(r.table, name, key, value) || exists i | 0 <= i < |run| :: Assigns(run[i], key)) ==>
            Holds(after.table, name, key, value))
    decreases run
  {
    hide IsHeader, HeaderName, ReadKey, ReadValue, Assigns, IsSetting, PlainWord;
    if run != [] {
      ReadKeyAgrees(run[0], key);
      if r.active.value == name && Assigns(run[0], key) {
        SettingReads(run[0], key, value);
      }
      ReadRun(ReadLine(r, run[0]), run[1..], name, key, value);
      assert forall i | 1 <= i < |run| :: run[i] == run[1..][i - 1];
    }
  }

  /** Reading one section of a patched file. */
  lemma ReadSection(r: Reader, s: Section, name: string, key: string, value: string)
    requires SectionOk(s) && PlainWord(key) && PlainWord(value)
    requires s.name == Some(name) ==> Fixed(s.lines, key, value)
    requires name in r.table ==> Holds(r.table, name, key, value)
    ensures var after := ReadLines(r, s.lines);
      && (name in after.table <==> name in r.table || s.name == Some(name))
      && (name in after.table ==> Holds(after.table, name, key, value))
  {
    hide IsHeader, HeaderName, ReadKey, ReadValue, Assigns, IsSetting, PlainWord;
    var header, run := s.lines[0], s.lines[1..];
    assert s.lines == [header] + run;
    var begun := ReadLine(r, header);
    assert ReadLines(r, s.lines) == ReadLines(begun, run);
    if s.name == Some(name) {
      var i :| 1 <= i < |s.lines| && Assigns(s.lines[i], key);
      assert run[i - 1] == s.lines[i];
    }
    ReadRun(begun, run, name, key, value);
  }

  /** A section by exactly this name. */
  predicate Exactly(sections: seq<Section>, name: string) {
    exists i | 0 <= i < |sections| :: sections[i].name == Some(name)
  }

  lemma {:induction false} ReadSectionsOk(r: Reader, sections: seq<Section>, name: string, key: string, value: string)
    requires forall i | 0 <= i < |sections| :: SectionOk(sections[i])
    requires forall i | 0 <= i < |sections| && sections[i].name == Some(name) :: Fixed(sections[i].lines, key, value)
    requires PlainWord(key) && PlainWord(value) && (name in r.table ==> Holds(r.table, name, key, value))
    ensures var after := ReadLines(r, Flatten(sections));
      && (name in after.table <==> name in r.table || Exactly(sections, name))
      && (name in after.table ==> Holds(after.table, name, key, value))
    decreases sections
  {
    hide SectionOk, Fixed, Holds, PlainWord, ReadLine;
    if sections != [] {
      ReadConcat(r, sections[0].lines, Flatten(sections[1..]));
      ReadSection(r, sections[0], name, key, value);
      ReadSectionsOk(ReadLines(r, sections[0].lines), sections[1..], name, key, value);
      assert Exactly(sections, name) <==> sections[0].name == Some(name) || Exactly(sections[1..], name) by {
        assert forall i | 1 <= i < |sections| :: sections[i] == sections[1..][i - 1];
      }
    }
  }

  lemma ReadPatched(sections: seq<Section>, k: nat, setting: Setting)
    requires WellFormed(sections) && Patched(sections, 5) && k < 5
    requires setting in RequiredSettings(REQUIRED_COMPONENTS[k])
    ensures var table := ReadLines(FRESH_READER, Flatten(sections)).table;
      var component := REQUIRED_COMPONENTS[k];
      && (component in table <==> Exactly(sections, component))
      && (component in table ==> Holds(table, component, setting.key, setting.value))
  {
    hide SectionOk, Fixed, Holds, PlainWord, ReadLine, RequiredSettings, NoHeaders;
    var component := REQUIRED_COMPONENTS[k];
    var settings := RequiredSettings(component);
    RequiredArePlain(component);
    var j :| 0 <= j < |settings| && settings[j] == setting;
    forall i | 0 <= i < |sections| && sections[i].name == Some(component)
      ensures Fixed(sections[i].lines, setting.key, setting.value)
    {
      assert Names(sections[i], component);
    }
    var first, rest := sections[0], sections[1..];
    ReadConcat(FRESH_READER, first.lines, Flatten(rest));
    ReadPreamble(FRESH_READER, first.lines);
    ReadSectionsOk(FRESH_READER, rest, component, setting.key, setting.value);
    assert Exactly(sections, component) <==> Exactly(rest, component) by {
      assert forall i | 1 <= i < |sections| :: sections[i] == rest[i - 1];
    }
  }

  lemma ExactAfter(sections: seq<Section>, k: nat, c: nat)
    requires WellFormed(sections) && k < 5 && c < 5
    ensures Exactly(PatchComponent(sections, REQUIRED_COMPONENTS[k]), REQUIRED_COMPONENTS[c])
       <==> Exactly(sections, REQUIRED_COMPONENTS[c]) || (k == c && !Mentions(sections, REQUIRED_COMPONENTS[c]))
  {
    hide SectionOk, UpsertAll, RequiredSettings, NewSection;
    var component, name := REQUIRED_COMPONENTS[k], REQUIRED_COMPONENTS[c];
    var after := PatchComponent(sections, component);
    ComponentsArePlain();
    NewSectionOk(component);
    if k != c && after != PatchEach(sections, component) {
      OneComponent(after[|sections|], k, c);
    }
    forall i | 0 <= i < |sections| ensures after[i].name == sections[i].name {
    }
    forall i | |sections| <= i < |after| ensures after[i].name == Some(component) && !Mentions(sections, component) {
    }
    if !Mentions(sections, name) && k == c {
      assert after[|sections|].name == Some(name);
    }
    if i :| 0 <= i < |sections| && sections[i].name == Some(name) {
      assert after[i].name == Some(name);
    }
  }

  lemma {:induction false} ExactAfterPatch(sections: seq<Section>, k: nat, c: nat)
    requires WellFormed(sections) && k <= 5 && c < 5 && Patched(sections, k)
    ensures Exactly(PatchFrom(sections, k), REQUIRED_COMPONENTS[c])
       <==> Exactly(sections, REQUIRED_COMPONENTS[c]) || (k <= c && !Mentions(sections, REQUIRED_COMPONENTS[c]))
    decreases 5 - k
  {
    hide WellFormed, Patched, PatchComponent, Exactly, Mentions;
    if k < 5 {
      var next := PatchComponent(sections, REQUIRED_COMPONENTS[k]);
      PatchComponentStep(sections, k);
      ExactAfter(sections, k, c);
      ExactAfterPatch(next, k + 1, c);
      if c != k {
        PatchMentionsNoOther(sections, k, c);
      }
    }
  }

  /** After the patch the reader reports a required component as enabled if and only if the file had a section by
      exactly that name, or none by that name in any case. */
  lemma EnabledIff(lines: seq<string>, c: nat)
    requires c < 5
    ensures Enabled(ReadLines(FRESH_READER, PatchLines(lines)).table, REQUIRED_COMPONENTS[c])
       <==> Exactly(Split(lines), REQUIRED_COMPONENTS[c]) || !Mentions(Split(lines), REQUIRED_COMPONENTS[c])
  {
    hide WellFormed, Patched, PatchFrom, Split, Exactly, Mentions, ReadLines;
    var component := REQUIRED_COMPONENTS[c];
    var sections := Patch(Split(lines));
    SplitOk(lines);
    PatchOk(lines);
    NothingPatched(Split(lines));
    ExactAfterPatch(Split(lines), 0, c);
    var settings := RequiredSettings(component);
    assert settings[0] == Setting("LogLevel", "1") && settings[1] == Setting("FilePrinting", "true");
    assert component == "Power" ==> settings[3] == Setting("Verbose", "1");
    ReadPatched(sections, c, settings[0]);
    ReadPatched(sections, c, settings[1]);
    if component == "Power" {
      ReadPatched(sections, c, settings[3]);
    }
  }

  /** The reader asks for exactly what the patcher writes, apart from the file size, and takes values in any case. */
  lemma ReaderAsksWhatPatchWrites(table: Table, component: string)
    ensures Enabled(table, component) <==>
      && component in table
      && forall setting | setting in RequiredSettings(component) && setting.key != "FileSize" ::
           && Lower(setting.key) in table[component]
           && Lower(table[component][Lower(setting.key)]) == Lower(setting.value)
  {
    hide Lower;
    var settings := RequiredSettings(component);
    assert settings[0] == Setting("LogLevel", "1") && settings[1] == Setting("FilePrinting", "true");
    assert settings[2].key == "FileSize";
    assert component == "Power" ==> settings[3] == Setting("Verbose", "1");
  }

  /** The section that the lines end in. */
  function SectionAt(lines: seq<string>): Option<string> {
    if lines == [] then None
    else
      var last := lines[|lines| - 1];
      if IsHeader(last) then Some(HeaderName(last)) else SectionAt(lines[..|lines| - 1])
  }

  /** What the last line that assigns the key within a section of this name says. */
  function LastSaid(lines: seq<string>, name: string, key: string): Option<string> {
    if lines == [] then None
    else
      var before, last := lines[..|lines| - 1], lines[|lines| - 1];
      if !IsHeader(last) && ReadKey(last) == Some(key) && SectionAt(before) == Some(name) then Some(ReadValue(last))
      else LastSaid(before, name, key)
  }

  predicate Headed(lines: seq<string>, name: string) {
    exists i | 0 <= i < |lines| :: IsHeader(lines[i]) && HeaderName(lines[i]) == name
  }

  function ValueIn(table: Table, name: string, key: string): Option<string> {
    if key in SettingsOf(table, name) then Some(SettingsOf(table, name)[key]) else None
  }

  lemma ReadOne(r: Reader, line: string, name: string, key: string)
    requires r.active.Some? ==> r.active.value in r.table
    ensures var after := ReadLine(r, line);
      && after.active == (if IsHeader(line) then Some(HeaderName(line)) else r.active)
      && (after.active.Some? ==> after.active.value in after.table)
      && (name in after.table <==> name in r.table || (IsHeader(line) && HeaderName(line) == name))
      && ValueIn(after.table, name, key)
           == if !IsHeader(line) && ReadKey(line) == Some(key) && r.active == Some(name) then Some(ReadValue(line))
              else ValueIn(r.table, name, key)
  {
    hide IsHeader, HeaderName, ReadKey, ReadValue;
  }

  lemma HeadedSnoc(lines: seq<string>, name: string)
    requires lines != []
    ensures var last := lines[|lines| - 1];
      Headed(lines, name) <==> Headed(lines[..|lines| - 1], name) || (IsHeader(last) && HeaderName(last) == name)
  {
    hide IsHeader, HeaderName;
    var init := lines[..|lines| - 1];
    assert forall i | 0 <= i < |init| :: init[i] == lines[i];
  }

  /** What is read of a whole file: the sections that it heads, however often, and of every key in them the value of its
      last assignment under that name. */
  lemma {:induction false} FileRead(lines: seq<string>, name: string, key: string)
    ensures var r := ReadLines(FRESH_READER, lines);
      && r.active == SectionAt(lines) && (r.active.Some? ==> r.active.value in r.table)
      && (name in r.table <==> Headed(lines, name))
      && ValueIn(r.table, name, key) == LastSaid(lines, name, key)
    decreases lines
  {
    hide IsHeader, HeaderName, ReadKey, ReadValue, ReadLine, ValueIn, Headed;
    if lines == [] {
      NothingRead(name, key);
    } else {
      var init, last := lines[..|lines| - 1], lines[|lines| - 1];
      assert lines == init + [last] && [last][1..] == [];
      ReadConcat(FRESH_READER, init, [last]);
      var r := ReadLines(FRESH_READER, init);
      FileRead(init, name, key);
      assert ReadLines(r, [last]) == ReadLines(ReadLine(r, last), []);
      ReadOne(r, last, name, key);
      HeadedSnoc(lines, name);
    }
  }

  lemma NothingRead(name: string, key: string)
    ensures !Headed([], name) && ValueIn(map[], name, key).None?
  {
  }
}
