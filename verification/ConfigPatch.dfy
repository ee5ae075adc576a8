/** Turning the required components on in `log.config`, and the independent reader that reports them. */
module ConfigPatch {
  import opened Prelude
  import opened Text
  import opened ConfigLines

  // Required settings.

  const REQUIRED_COMPONENTS: seq<string> := ["LoadingScreen", "Power", "Zone", "Arena", "Asset"]

  const LOG_FILE_SIZE_KB: string := "200000"

  datatype Setting = Setting(key: string, value: string)

  function RequiredSettings(component: string): seq<Setting> {
    [Setting("LogLevel", "1"), Setting("FilePrinting", "true"), Setting("FileSize", LOG_FILE_SIZE_KB)]
    + (if component == "Power" then [Setting("Verbose", "1")] else [])
  }

  ghost predicate Plain(settings: seq<Setting>) {
    && (forall i | 0 <= i < |settings| :: PlainWord(settings[i].key) && PlainWord(settings[i].value))
    && forall i, j | 0 <= i < j < |settings| :: !SameIgnoringCase(settings[i].key, settings[j].key)
  }

  lemma RequiredArePlain(component: string)
    ensures Plain(RequiredSettings(component))
  {
    hide PlainWord, SameIgnoringCase;
    WordsArePlain();
    KeysDiffer();
  }

  lemma WordsArePlain()
    ensures PlainWord("LogLevel") && PlainWord("FilePrinting") && PlainWord("FileSize") && PlainWord("Verbose")
    ensures PlainWord("1") && PlainWord("true") && PlainWord(LOG_FILE_SIZE_KB)
  {
  }

  lemma KeysDiffer()
    ensures !SameIgnoringCase("LogLevel", "FilePrinting") && !SameIgnoringCase("LogLevel", "FileSize")
    ensures !SameIgnoringCase("LogLevel", "Verbose") && !SameIgnoringCase("FilePrinting", "FileSize")
    ensures !SameIgnoringCase("FilePrinting", "Verbose") && !SameIgnoringCase("FileSize", "Verbose")
  {
    assert Lower("LogLevel")[0] == 'l' && Lower("Verbose")[0] == 'v';
    assert Lower("FilePrinting")[0] == 'f' && Lower("FilePrinting")[4] == 'p';
    assert Lower("FileSize")[0] == 'f' && Lower("FileSize")[4] == 's';
  }

  lemma ComponentsArePlain()
    ensures forall i | 0 <= i < 5 :: PlainWord(REQUIRED_COMPONENTS[i])
    ensures forall i, j | 0 <= i < j < 5 :: !SameIgnoringCase(REQUIRED_COMPONENTS[i], REQUIRED_COMPONENTS[j])
  {
    assert Lower("LoadingScreen")[0] == 'l' && Lower("Power")[0] == 'p' && Lower("Zone")[0] == 'z';
    assert Lower("Arena")[1] == 'r' && Lower("Asset")[1] == 's' && Lower("Arena")[0] == 'a' && Lower("Asset")[0] == 'a';
  }

  // One section's lines.

  predicate Sets(lines: seq<string>, key: string) {
    exists i | 1 <= i < |lines| :: Assigns(lines[i], key)
  }

  function Rewritten(lines: seq<string>, key: string, value: string): seq<string> {
    seq(|lines|, i requires 0 <= i < |lines| =>
      if i > 0 && Assigns(lines[i], key) then Replacement(lines[i], key, value) else lines[i])
  }

  function Upsert(lines: seq<string>, key: string, value: string): seq<string> {
    if Sets(lines, key) then Rewritten(lines, key, value) else lines + [key + "=" + value]
  }

  function UpsertAll(lines: seq<string>, settings: seq<Setting>): seq<string>
    decreases settings
  {
    if settings == [] then lines
    else UpsertAll(Upsert(lines, settings[0].key, settings[0].value), settings[1..])
  }

  /** The key is set, and every line that sets it has this value. */
  ghost predicate Fixed(lines: seq<string>, key: string, value: string) {
    && Sets(lines, key)
    && forall i | 1 <= i < |lines| && Assigns(lines[i], key) :: IsSetting(lines[i], key, value)
  }

  lemma SettingAssigns(line: string, key: string, value: string)
    requires PlainWord(key) && PlainWord(value) && IsSetting(line, key, value)
    ensures KeyOf(line) == Some(key) && Assigns(line, key)
  {
    ReplacementIdempotent(line, key, value);
  }

  lemma UpsertFixes(lines: seq<string>, key: string, value: string)
    requires lines != [] && PlainWord(key) && PlainWord(value)
    ensures Fixed(Upsert(lines, key, value), key, value)
  {
    hide Assigns, IsSetting, Replacement;
    var after := Upsert(lines, key, value);
    if Sets(lines, key) {
      forall i | 1 <= i < |lines| && Assigns(lines[i], key)
        ensures IsSetting(after[i], key, value) && Assigns(after[i], key)
      {
        AssignsHasKey(lines[i], key);
        ReplacementIsSetting(lines[i], key, value);
        SettingAssigns(after[i], key, value);
      }
    } else {
      PlainSetting(key, value);
      SettingAssigns(key + "=" + value, key, value);
      assert Assigns(after[|lines|], key);
    }
  }

  lemma AssignsHasKey(line: string, key: string)
    ensures Assigns(line, key) ==> KeyOf(line).Some?
  {
  }

  lemma UpsertKeepsOther(lines: seq<string>, key: string, value: string, other: string, kept: string)
    requires lines != [] && PlainWord(key) && PlainWord(value) && !SameIgnoringCase(key, other)
    requires Fixed(lines, other, kept)
    ensures Fixed(Upsert(lines, key, value), other, kept)
  {
    hide IsSetting, Replacement;
    var after := Upsert(lines, key, value);
    forall i | 1 <= i < |after|
      ensures Assigns(after[i], other) ==> i < |lines| && after[i] == lines[i]
      ensures i < |lines| && Assigns(lines[i], other) ==> after[i] == lines[i]
    {
      if i == |lines| {
        PlainSetting(key, value);
        SettingAssigns(after[i], key, value);
      } else if Assigns(lines[i], key) {
        ReplacementIsSetting(lines[i], key, value);
        SettingAssigns(Replacement(lines[i], key, value), key, value);
      }
    }
  }

  lemma FixedStays(lines: seq<string>, key: string, value: string)
    requires PlainWord(key) && PlainWord(value) && Fixed(lines, key, value)
    ensures Upsert(lines, key, value) == lines
  {
    hide IsSetting, Replacement, Assigns;
    forall i | 1 <= i < |lines| && Assigns(lines[i], key)
      ensures KeyOf(lines[i]).Some? && Replacement(lines[i], key, value) == lines[i]
    {
      ReplacementIdempotent(lines[i], key, value);
    }
    assert Rewritten(lines, key, value) == lines;
  }

  ghost predicate Settled(lines: seq<string>, settings: seq<Setting>) {
    forall i | 0 <= i < |settings| :: Fixed(lines, settings[i].key, settings[i].value)
  }

  lemma {:induction false} UpsertAllKeepsOther(lines: seq<string>, settings: seq<Setting>, other: Setting)
    requires lines != [] && Plain(settings) && Fixed(lines, other.key, other.value)
    requires forall i | 0 <= i < |settings| :: !SameIgnoringCase(settings[i].key, other.key)
    ensures Fixed(UpsertAll(lines, settings), other.key, other.value)
    decreases settings
  {
    hide Upsert, Fixed, PlainWord, SameIgnoringCase;
    if settings != [] {
      UpsertKeepsOther(lines, settings[0].key, settings[0].value, other.key, other.value);
      UpsertNonEmpty(lines, settings[0]);
      UpsertAllKeepsOther(Upsert(lines, settings[0].key, settings[0].value), settings[1..], other);
    }
  }

  lemma UpsertNonEmpty(lines: seq<string>, setting: Setting)
    requires lines != []
    ensures Upsert(lines, setting.key, setting.value) != []
    ensures Upsert(lines, setting.key, setting.value)[0] == lines[0]
  {
  }

  lemma {:induction false} UpsertAllSettles(lines: seq<string>, settings: seq<Setting>)
    requires lines != [] && Plain(settings)
    ensures UpsertAll(lines, settings) != [] && UpsertAll(lines, settings)[0] == lines[0]
    ensures Settled(UpsertAll(lines, settings), settings)
    decreases settings
  {
    hide Upsert, Fixed, PlainWord, SameIgnoringCase;
    if settings != [] {
      var first, rest := settings[0], settings[1..];
      var next := Upsert(lines, first.key, first.value);
      UpsertNonEmpty(lines, first);
      UpsertFixes(lines, first.key, first.value);
      UpsertAllSettles(next, rest);
      forall i | 0 <= i < |rest| ensures !SameIgnoringCase(rest[i].key, first.key) {
        assert !SameIgnoringCase(settings[0].key, settings[i + 1].key);
        DifferSymmetric(first.key, rest[i].key);
      }
      UpsertAllKeepsOther(next, rest, first);
    }
  }

  lemma DifferSymmetric(a: string, b: string)
    ensures SameIgnoringCase(a, b) <==> SameIgnoringCase(b, a)
  {
  }

  lemma {:induction false} SettledStays(lines: seq<string>, settings: seq<Setting>)
    requires Plain(settings) && Settled(lines, settings)
    ensures UpsertAll(lines, settings) == lines
    decreases settings
  {
    hide Upsert, Fixed, PlainWord, SameIgnoringCase;
    if settings != [] {
      FixedStays(lines, settings[0].key, settings[0].value);
      SettledStays(lines, settings[1..]);
    }
  }

  // The lines that are no required setting.

  predicate Required(line: string, settings: seq<Setting>) {
    exists i | 0 <= i < |settings| :: Assigns(line, settings[i].key)
  }

  function Others(lines: seq<string>, settings: seq<Setting>): seq<string> {
    if lines == [] then []
    else (if Required(lines[0], settings) then [] else [lines[0]]) + Others(lines[1..], settings)
  }

  /** Replacing required lines by required lines leaves the others, in order. */
  lemma {:induction false} OthersUntouched(a: seq<string>, b: seq<string>, settings: seq<Setting>)
    requires |a| <= |b|
    requires forall i | 0 <= i < |b| ::
      (Required(b[i], settings) && (i < |a| ==> Required(a[i], settings))) || (i < |a| && a[i] == b[i])
    ensures Others(a, settings) == Others(b, settings)
    decreases b
  {
    hide Required;
    if b != [] {
      if a == [] {
        OthersUntouched([], b[1..], settings);
      } else {
        OthersUntouched(a[1..], b[1..], settings);
      }
    }
  }

  lemma UpsertKeepsOthers(lines: seq<string>, settings: seq<Setting>, k: nat)
    requires lines != [] && k < |settings| && Plain(settings)
    ensures var after := Upsert(lines, settings[k].key, settings[k].value);
      |after| >= |lines| && Others(after[1..], settings) == Others(lines[1..], settings)
  {
    hide IsSetting, Replacement, Assigns;
    var key, value := settings[k].key, settings[k].value;
    var after := Upsert(lines, key, value);
    forall i | 1 <= i < |after|
      ensures (Required(after[i], settings) && (i < |lines| ==> Required(lines[i], settings)))
           || (i < |lines| && lines[i] == after[i])
    {
      if i == |lines| {
        PlainSetting(key, value);
        SettingAssigns(after[i], key, value);
      } else if Assigns(lines[i], key) {
        AssignsHasKey(lines[i], key);
        ReplacementIsSetting(lines[i], key, value);
        if Sets(lines, key) {
          SettingAssigns(after[i], key, value);
        }
      }
    }
    OthersUntouched(lines[1..], after[1..], settings);
  }

  lemma {:induction false} UpsertSomeKeepOthers(lines: seq<string>, settings: seq<Setting>, k: nat)
    requires lines != [] && k <= |settings| && Plain(settings)
    ensures var after := UpsertAll(lines, settings[k..]);
      after != [] && after[0] == lines[0] && Others(after[1..], settings) == Others(lines[1..], settings)
    decreases |settings| - k
  {
    hide Upsert, Plain, Others;
    if k < |settings| {
      UpsertKeepsOthers(lines, settings, k);
      UpsertNonEmpty(lines, settings[k]);
      assert settings[k..][1..] == settings[k + 1..];
      UpsertSomeKeepOthers(Upsert(lines, settings[k].key, settings[k].value), settings, k + 1);
    }
  }
}
