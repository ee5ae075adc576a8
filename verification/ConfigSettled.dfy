/** What the patcher writes: the settings of a missing component, and the line that replaces an assignment. */
module ConfigSettled {
  import opened Prelude
  import opened Text
  import opened ConfigLines
  import opened ConfigPatch
  import opened ConfigSections
  import opened ConfigText

  // Replaced lines.

  /** The text before a comment: no comment sign, and no space at its end. */
  predicate PlainValue(value: string) {
    && (forall c | c in value :: c != ';' && c != '#')
    && (value != [] ==> !IsSpace(value[|value| - 1]))
  }

  /** A comment sign and anything after it. */
  predicate Remark(remark: string) {
    remark == [] || remark[0] == ';' || remark[0] == '#'
  }

  lemma {:induction false} TrimEndIs(value: string, spaces: string)
    requires AllSpaces(spaces) && (value != [] ==> !IsSpace(value[|value| - 1]))
    ensures TrimEnd(value + spaces) == value
  {
    TrimEndSkips(value, spaces);
  }

  lemma CommentIs(value: string, spaces: string, remark: string)
    requires PlainValue(value) && AllSpaces(spaces) && remark != [] && Remark(remark)
    ensures CommentOf(value + spaces + remark) == spaces + remark
  {
    var all, end := value + spaces + remark, |value| + |spaces|;
    forall k | 0 <= k < end ensures all[k] != ';' && all[k] != '#' {
      assert k < |value| ==> all[k] == value[k] && value[k] in value;
      assert k >= |value| ==> all[k] == spaces[k - |value|] && spaces[k - |value|] in spaces;
    }
    CommentStartUnique(all, end);
    assert all[..end] == value + spaces && all[end..] == remark;
    TrimEndIs(value, spaces);
    assert (value + spaces)[|value|..] == spaces;
  }

  lemma NoCommentIs(value: string)
    requires forall c | c in value :: c != ';' && c != '#'
    ensures CommentOf(value) == []
  {
    assert forall i | 0 <= i < |value| :: value[i] in value;
    CommentStartUnique(value, |value|);
  }

  /** An assignment of the key in any case is replaced by key and value, between the line's own indentation and its own
      remark; the spaces before the remark stay, those around the equals sign go. */
  lemma ReplacedLine(
    indent: string, written: string, gap: string, old_: string, spaces: string, remark: string, key: string, value: string)
    requires AllSpaces(indent) && AllSpaces(gap) && AllSpaces(spaces) && PlainWord(written) && SameIgnoringCase(written, key)
    requires PlainValue(old_) && Remark(remark)
    ensures var line := indent + (written + (gap + ("=" + (old_ + spaces + remark))));
      && Assigns(line, key)
      && Replacement(line, key, value)
           == indent + key + "=" + value + (if remark == [] then [] else spaces + remark)
  {
    hide PlainWord, SameIgnoringCase, CommentOf, TrimStart;
    var text := old_ + spaces + remark;
    var line := indent + (written + (gap + ("=" + text)));
    LineParts(indent, written, gap, text);
    if remark == [] {
      forall c | c in text ensures c != ';' && c != '#' {
        assert c in old_ || c in spaces;
      }
      NoCommentIs(text);
    } else {
      CommentIs(old_, spaces, remark);
    }
  }

  lemma LineParts(indent: string, written: string, gap: string, text: string)
    requires AllSpaces(indent) && AllSpaces(gap) && PlainWord(written)
    ensures var line := indent + (written + (gap + ("=" + text)));
      KeyOf(line) == Some(written) && ValuePart(line) == text && IndentOf(line) == indent
  {
    hide Trim;
    var line, i := indent + (written + (gap + ("=" + text))), |indent| + |written| + |gap|;
    assert line[..i] == indent + written + gap && line[i] == '=' && line[i + 1..] == text;
    assert '=' !in indent + written + gap;
    IndexOfUnique(line, '=', i);
    WordTrims(indent, written, gap);
    var rest := written + (gap + ("=" + text));
    assert rest[0] == written[0] && written[0] in written;
    TrimStartSkips(indent, rest);
    assert line[..|line| - |rest|] == indent;
  }

  // New sections.

  /** The lines of a component that the file does not name. */
  function Enabling(component: string): seq<string> {
    ["[" + component + "]", "LogLevel=1", "FilePrinting=true", "FileSize=200000"]
    + (if component == "Power" then ["Verbose=1"] else [])
  }

  lemma SetOnce(lines: seq<string>, setting: Setting)
    requires lines != [] && (forall i | 1 <= i < |lines| :: !Assigns(lines[i], setting.key))
    ensures Upsert(lines, setting.key, setting.value) == lines + [setting.key + "=" + setting.value]
  {
    hide Assigns;
  }

  lemma AppendSettings(lines: seq<string>, settings: seq<Setting>, k: nat)
    requires lines != [] && Plain(settings) && k <= |settings|
    requires |lines| == k + 1 && forall i | 0 <= i < k :: lines[i + 1] == settings[i].key + "=" + settings[i].value
    ensures UpsertAll(lines, settings[k..])
         == lines + seq(|settings| - k, i requires 0 <= i < |settings| - k =>
              settings[k + i].key + "=" + settings[k + i].value)
    decreases |settings| - k
  {
    hide PlainWord, SameIgnoringCase;
    if k < |settings| {
      forall i | 1 <= i < |lines| ensures !Assigns(lines[i], settings[k].key) {
        PlainSetting(settings[i - 1].key, settings[i - 1].value);
        SettingAssigns(lines[i], settings[i - 1].key, settings[i - 1].value);
        assert !SameIgnoringCase(settings[i - 1].key, settings[k].key);
      }
      SetOnce(lines, settings[k]);
      assert settings[k..][1..] == settings[k + 1..];
      AppendSettings(lines + [settings[k].key + "=" + settings[k].value], settings, k + 1);
    }
  }

  lemma NewSectionIs(component: string)
    ensures NewSection(component) == Section(Some(component), Enabling(component))
  {
    hide PlainWord, SameIgnoringCase, Upsert;
    var settings := RequiredSettings(component);
    RequiredArePlain(component);
    AppendSettings(["[" + component + "]"], settings, 0);
    assert settings[0..] == settings;
    SettingTexts();
  }

  lemma SettingTexts()
    ensures "LogLevel" + "=" + "1" == "LogLevel=1" && "FilePrinting" + "=" + "true" == "FilePrinting=true"
    ensures "FileSize" + "=" + LOG_FILE_SIZE_KB == "FileSize=200000" && "Verbose" + "=" + "1" == "Verbose=1"
  {
  }

  /** A file that names no required component is kept as it is, and the five components follow it in this order. */
  lemma UntouchedFile(lines: seq<string>)
    requires forall k | 0 <= k < 5 :: !Mentions(Split(lines), REQUIRED_COMPONENTS[k])
    ensures PatchLines(lines) ==
      lines + (Enabling("LoadingScreen") + Enabling("Power") + Enabling("Zone") + Enabling("Arena") + Enabling("Asset"))
  {
    hide Split, Flatten, Enabling, Mentions, PatchFrom, WellFormed;
    var sections, added := Split(lines), FiveAdded();
    SplitOk(lines);
    assert sections + added[..0] == sections;
    AddAll(sections, 0);
    FlattenConcat(sections, added);
    FlattenFive(added);
  }

  function FiveAdded(): (r: seq<Section>)
    ensures |r| == 5
  {
    [Added("LoadingScreen"), Added("Power"), Added("Zone"), Added("Arena"), Added("Asset")]
  }

  lemma AddedInOrder(k: nat)
    requires k < 5
    ensures FiveAdded()[k] == Added(REQUIRED_COMPONENTS[k])
    ensures FiveAdded()[..k] + [Added(REQUIRED_COMPONENTS[k])] == FiveAdded()[..k + 1]
  {
    hide Added;
  }

  lemma AddAll(sections: seq<Section>, k: nat)
    requires k <= 5 && forall k | 0 <= k < 5 :: !Mentions(sections, REQUIRED_COMPONENTS[k])
    ensures PatchFrom(sections + FiveAdded()[..k], k) == sections + FiveAdded()
    decreases 5 - k
  {
    hide Mentions, PatchFrom, FiveAdded, Added;
    if k < 5 {
      forall i | 0 <= i < k ensures FiveAdded()[..k][i] == Added(REQUIRED_COMPONENTS[i]) {
        AddedInOrder(i);
      }
      AddedInOrder(k);
      AddMissing(sections, FiveAdded()[..k], k);
      AddAll(sections, k + 1);
    } else {
      assert FiveAdded()[..5] == FiveAdded();
      PatchNoMore(sections + FiveAdded());
    }
  }

  lemma PatchNoMore(sections: seq<Section>)
    ensures PatchFrom(sections, 5) == sections
  {
  }

  function Added(component: string): Section {
    Section(Some(component), Enabling(component))
  }

  lemma AddMissing(sections: seq<Section>, added: seq<Section>, k: nat)
    requires k < 5 && |added| == k && !Mentions(sections, REQUIRED_COMPONENTS[k])
    requires forall i | 0 <= i < k :: added[i] == Added(REQUIRED_COMPONENTS[i])
    ensures PatchFrom(sections + added, k) == PatchFrom(sections + (added + [Added(REQUIRED_COMPONENTS[k])]), k + 1)
  {
    hide SameIgnoringCase, Enabling, PatchFrom;
    var component, all := REQUIRED_COMPONENTS[k], sections + added;
    ComponentsArePlain();
    forall i | 0 <= i < |all| ensures !Names(all[i], component) {
      if i >= |sections| {
        assert all[i] == Added(REQUIRED_COMPONENTS[i - |sections|]);
      }
    }
    assert PatchEach(all, component) == all;
    NewSectionIs(component);
    assert sections + added + [Added(component)] == sections + (added + [Added(component)]);
    PatchOneMore(all, k);
  }

  lemma PatchOneMore(sections: seq<Section>, k: nat)
    requires k < 5
    ensures PatchFrom(sections, k) == PatchFrom(PatchComponent(sections, REQUIRED_COMPONENTS[k]), k + 1)
  {
  }

  lemma FlattenFive(s: seq<Section>)
    requires |s| == 5
    ensures Flatten(s) == s[0].lines + s[1].lines + s[2].lines + s[3].lines + s[4].lines
  {
    hide Flatten;
    forall i | 0 <= i < 5 ensures Flatten(s[i..i + 1]) == s[i].lines {
      assert s[i..i + 1] == [s[i]];
      FlattenOne(s[i]);
    }
    forall i | 0 < i < 5 ensures Flatten(s[..i + 1]) == Flatten(s[..i]) + Flatten(s[i..i + 1]) {
      assert s[..i + 1] == s[..i] + s[i..i + 1];
      FlattenConcat(s[..i], s[i..i + 1]);
    }
    assert s[..1] == s[0..1] && s[..5] == s;
  }

  /** The configuration written for a game that had none. */
  lemma FreshFile()
    ensures WithRequiredSections("") == Terminate(
      ["[LoadingScreen]", "LogLevel=1", "FilePrinting=true", "FileSize=200000",
       "[Power]", "LogLevel=1", "FilePrinting=true", "FileSize=200000", "Verbose=1",
       "[Zone]", "LogLevel=1", "FilePrinting=true", "FileSize=200000",
       "[Arena]", "LogLevel=1", "FilePrinting=true", "FileSize=200000",
       "[Asset]", "LogLevel=1", "FilePrinting=true", "FileSize=200000"], "\n")
  {
    hide Terminate, PatchLines, Enabling, Split;
    assert Split([]) == [PREAMBLE] by {
      NothingSplit();
    }
    forall k | 0 <= k < 5 ensures !Mentions(Split([]), REQUIRED_COMPONENTS[k]) {
    }
    UntouchedFile([]);
    assert Lines("") == [] && LineEnding("") == "\n";
    EnablingFive();
  }

  lemma NothingSplit()
    ensures Split([]) == [PREAMBLE]
  {
  }

  lemma EnablingFive()
    ensures [] + (Enabling("LoadingScreen") + Enabling("Power") + Enabling("Zone") + Enabling("Arena") + Enabling("Asset")) ==
      ["[LoadingScreen]", "LogLevel=1", "FilePrinting=true", "FileSize=200000",
       "[Power]", "LogLevel=1", "FilePrinting=true", "FileSize=200000", "Verbose=1",
       "[Zone]", "LogLevel=1", "FilePrinting=true", "FileSize=200000",
       "[Arena]", "LogLevel=1", "FilePrinting=true", "FileSize=200000",
       "[Asset]", "LogLevel=1", "FilePrinting=true", "FileSize=200000"]
  {
    Headers();
    assert Enabling("LoadingScreen") == ["[LoadingScreen]", "LogLevel=1", "FilePrinting=true", "FileSize=200000"];
    assert Enabling("Power") == ["[Power]", "LogLevel=1", "FilePrinting=true", "FileSize=200000", "Verbose=1"];
    assert Enabling("Zone") == ["[Zone]", "LogLevel=1", "FilePrinting=true", "FileSize=200000"];
    assert Enabling("Arena") == ["[Arena]", "LogLevel=1", "FilePrinting=true", "FileSize=200000"];
    assert Enabling("Asset") == ["[Asset]", "LogLevel=1", "FilePrinting=true", "FileSize=200000"];
  }

  lemma Headers()
    ensures "[" + "LoadingScreen" + "]" == "[LoadingScreen]" && "[" + "Power" + "]" == "[Power]"
    ensures "[" + "Zone" + "]" == "[Zone]" && "[" + "Arena" + "]" == "[Arena]" && "[" + "Asset" + "]" == "[Asset]"
  {
  }
}
