/** The patch of `log.config` as text: line endings, and the loops that do the work. */
module ConfigText {
  import opened Prelude
  import opened Text
  import opened ConfigLines
  import opened ConfigPatch
  import opened ConfigSections
  import opened ConfigReader

  /** `str::lines`: a carriage return belongs to the ending only before a newline. */
  function Lines(source: string): seq<string>
    decreases source
  {
    if source == [] then []
    else
      var end := LineLength(source);
      if end == |source| then [source] else [StripCr(source[..end])] + Lines(source[end + 1..])
  }

  function Terminate(lines: seq<string>, ending: string): string {
    if lines == [] then [] else lines[0] + ending + Terminate(lines[1..], ending)
  }

  const CRLF: string := [CR, LF]

  function LineEnding(source: string): string {
    if Contains(source, CRLF) then CRLF else [LF]
  }

  function WithRequiredSections(source: string): string {
    Terminate(PatchLines(Lines(source)), LineEnding(source))
  }

  // What patching does to the characters at the ends of lines.

  predicate LfFree(lines: seq<string>) {
    forall i | 0 <= i < |lines| :: LF !in lines[i]
  }

  predicate CrEnded(line: string) {
    line != [] && line[|line| - 1] == CR
  }

  function CrCount(lines: seq<string>): nat {
    if lines == [] then 0 else (if CrEnded(lines[0]) then 1 else 0) + CrCount(lines[1..])
  }

  /** No newline gets into a line, and no further line comes to end in a carriage return. */
  predicate Tame(before: seq<string>, after: seq<string>) {
    (LfFree(before) ==> LfFree(after)) && CrCount(after) <= CrCount(before)
  }

  lemma {:induction false} CrCountConcat(a: seq<string>, b: seq<string>)
    ensures CrCount(a + b) == CrCount(a) + CrCount(b)
  {
    if a == [] {
      assert a + b == b;
    } else {
      assert (a + b)[0] == a[0] && (a + b)[1..] == a[1..] + b;
      CrCountConcat(a[1..], b);
    }
  }

  lemma TameConcat(a: seq<string>, a': seq<string>, b: seq<string>, b': seq<string>)
    requires Tame(a, a') && Tame(b, b')
    ensures Tame(a + b, a' + b')
  {
    CrCountConcat(a, b);
    CrCountConcat(a', b');
    if LfFree(a + b) {
      assert forall i | 0 <= i < |a| :: a[i] == (a + b)[i];
      assert forall i | 0 <= i < |b| :: b[i] == (a + b)[|a| + i];
    }
  }

  lemma {:induction false} FewerCr(before: seq<string>, after: seq<string>)
    requires |before| == |after| && forall i | 0 <= i < |after| && CrEnded(after[i]) :: CrEnded(before[i])
    ensures CrCount(after) <= CrCount(before)
  {
    hide CrEnded;
    if after != [] {
      FewerCr(before[1..], after[1..]);
    }
  }

  lemma WordEnds(word: string)
    requires PlainWord(word)
    ensures LF !in word && !CrEnded(word)
  {
    if word != [] {
      assert word[|word| - 1] in word;
    }
  }

  /** A comment ends as its value part does, and holds nothing else. */
  lemma CommentEnding(part: string)
    ensures CommentOf(part) == [] <==> CommentStart(part) == |part|
    ensures CommentOf(part) != [] ==> part != [] && CommentOf(part)[|CommentOf(part)| - 1] == part[|part| - 1]
    ensures LF !in part ==> LF !in CommentOf(part)
  {
    hide TrimEnd, CommentStart;
    var i, comment := CommentStart(part), CommentOf(part);
    if i < |part| {
      var kept := |TrimEnd(part[..i])|;
      SpacesAndSign(part, i, kept);
      assert comment == part[kept..];
      if LF in comment {
        var k :| 0 <= k < |comment| && comment[k] == LF;
        assert part[kept + k] == LF;
      }
    }
  }

  lemma SpacesAndSign(part: string, i: nat, kept: nat)
    requires kept <= i <= |part|
    ensures part[..i][kept..] + part[i..] == part[kept..]
  {
  }

  lemma ReplacementTame(line: string, key: string, value: string)
    requires PlainWord(key) && PlainWord(value) && KeyOf(line).Some?
    ensures LF !in line ==> LF !in Replacement(line, key, value)
    ensures CrEnded(Replacement(line, key, value)) ==> CrEnded(line)
  {
    hide CommentOf, CommentStart, TrimStart, PlainWord;
    WordEnds(key);
    WordEnds(value);
    TrimStartSplits(line);
    var part := ValuePart(line);
    CommentEnding(part);
    assert LF !in line ==> LF !in part && LF !in IndentOf(line);
    if CommentOf(part) != [] {
      assert part[|part| - 1] == line[|line| - 1];
    } else {
      NotEmpty(value);
    }
  }

  lemma NotEmpty(word: string)
    requires PlainWord(word)
    ensures word != []
  {
  }

  lemma UpsertTame(lines: seq<string>, key: string, value: string)
    requires PlainWord(key) && PlainWord(value)
    ensures Tame(lines, Upsert(lines, key, value))
  {
    hide PlainWord, Replacement, Assigns, CrEnded;
    WordEnds(key);
    WordEnds(value);
    if Sets(lines, key) {
      forall i | 0 <= i < |lines|
        ensures LF !in lines[i] ==> LF !in Rewritten(lines, key, value)[i]
        ensures CrEnded(Rewritten(lines, key, value)[i]) ==> CrEnded(lines[i])
      {
        AssignsHasKey(lines[i], key);
        if Assigns(lines[i], key) {
          ReplacementTame(lines[i], key, value);
        }
      }
      FewerCr(lines, Rewritten(lines, key, value));
    } else {
      var line := key + "=" + value;
      PlainLineEnds(key, value);
      CrCountConcat(lines, [line]);
      assert [line][1..] == [];
    }
  }

  lemma PlainLineEnds(key: string, value: string)
    requires PlainWord(key) && PlainWord(value)
    ensures LF !in key + "=" + value && !CrEnded(key + "=" + value)
  {
    WordEnds(key);
    WordEnds(value);
  }

  lemma {:induction false} UpsertAllTame(lines: seq<string>, settings: seq<Setting>)
    requires Plain(settings)
    ensures Tame(lines, UpsertAll(lines, settings))
    decreases settings
  {
    hide PlainWord, Upsert, CrCount, LfFree;
    if settings != [] {
      UpsertTame(lines, settings[0].key, settings[0].value);
      UpsertAllTame(Upsert(lines, settings[0].key, settings[0].value), settings[1..]);
    }
  }

  lemma {:induction false} PatchEachTame(sections: seq<Section>, component: string)
    ensures Tame(Flatten(sections), Flatten(PatchEach(sections, component)))
    decreases sections
  {
    hide Plain, UpsertAll, Names, Tame, RequiredSettings;
    if sections == [] {
      SameTame([]);
    } else {
      RequiredArePlain(component);
      SameTame(sections[0].lines);
      UpsertAllTame(sections[0].lines, RequiredSettings(component));
      PatchEachTame(sections[1..], component);
      assert PatchEach(sections, component)[1..] == PatchEach(sections[1..], component);
      TameConcat(sections[0].lines, PatchSection(sections[0], component).lines,
                 Flatten(sections[1..]), Flatten(PatchEach(sections[1..], component)));
    }
  }

  lemma SameTame(lines: seq<string>)
    ensures Tame(lines, lines)
  {
  }

  lemma TameThen(a: seq<string>, b: seq<string>, c: seq<string>)
    requires Tame(a, b) && Tame(b, c)
    ensures Tame(a, c)
  {
  }

  lemma NewSectionTame(component: string)
    requires PlainWord(component)
    ensures Tame([], NewSection(component).lines)
  {
    hide Plain, RequiredSettings, UpsertAll;
    var header := "[" + component + "]";
    RequiredArePlain(component);
    WordEnds(component);
    UpsertAllTame([header], RequiredSettings(component));
    assert LF !in header && !CrEnded(header);
    assert [header][1..] == [];
  }

  lemma PatchComponentTame(sections: seq<Section>, component: string)
    requires PlainWord(component)
    ensures Tame(Flatten(sections), Flatten(PatchComponent(sections, component)))
  {
    hide PlainWord, PatchEach, NewSection, Tame, Mentions;
    var each, added := PatchEach(sections, component), NewSection(component);
    PatchEachTame(sections, component);
    if Mentions(sections, component) {
      assert each + [] == each;
    } else {
      NewSectionTame(component);
      TameConcat(Flatten(sections), Flatten(each), [], added.lines);
      FlattenConcat(each, [added]);
      FlattenOne(added);
      assert Flatten(sections) + [] == Flatten(sections);
    }
  }

  lemma {:induction false} PatchFromTame(sections: seq<Section>, k: nat)
    requires k <= 5
    ensures Tame(Flatten(sections), Flatten(PatchFrom(sections, k)))
    decreases 5 - k
  {
    hide PlainWord, PatchComponent, Tame, Flatten;
    ComponentsArePlain();
    if k < 5 {
      var next := PatchComponent(sections, REQUIRED_COMPONENTS[k]);
      PatchComponentTame(sections, REQUIRED_COMPONENTS[k]);
      PatchFromTame(next, k + 1);
      TameThen(Flatten(sections), Flatten(next), Flatten(PatchFrom(next, k + 1)));
    } else {
      SameTame(Flatten(sections));
    }
  }

  lemma {:induction false} FlattenAtLeast(sections: seq<Section>, i: nat)
    requires i < |sections|
    ensures |Flatten(sections)| >= |sections[i].lines|
  {
    if i > 0 {
      FlattenAtLeast(sections[1..], i - 1);
    }
  }

  lemma PatchedLinesTame(lines: seq<string>)
    ensures Tame(lines, PatchLines(lines)) && |PatchLines(lines)| >= 2
  {
    hide WellFormed, Tame, PatchFrom, Split, SectionOk;
    SplitOk(lines);
    PatchFromTame(Split(lines), 0);
    PatchOk(lines);
    var sections, component := Patch(Split(lines)), REQUIRED_COMPONENTS[0];
    var i :| 0 <= i < |sections| && Names(sections[i], component);
    FlattenAtLeast(sections, i);
    var setting := RequiredSettings(component)[0];
    assert Fixed(sections[i].lines, setting.key, setting.value);
  }

  // Line endings.

  lemma FirstLineBack(line: string, ending: string, rest: string)
    requires LF !in line && (ending == CRLF || (ending == [LF] && !CrEnded(line)))
    ensures Lines(line + ending + rest) == [line] + Lines(rest)
  {
    var all := line + ending + rest;
    if ending == CRLF {
      assert all == (line + [CR]) + [LF] + rest;
      LineLengthOf(line + [CR], rest);
      assert all[..|line| + 1] == line + [CR] && StripCr(line + [CR]) == line && all[|line| + 2..] == rest;
    } else {
      LineLengthOf(line, rest);
      assert all[..|line|] == line && StripCr(line) == line && all[|line| + 1..] == rest;
    }
  }

  lemma {:induction false} LinesOfTerminated(lines: seq<string>, ending: string)
    requires LfFree(lines)
    requires ending == CRLF || (ending == [LF] && forall i | 0 <= i < |lines| :: !CrEnded(lines[i]))
    ensures Lines(Terminate(lines, ending)) == lines
  {
    hide Lines, CrEnded;
    if lines == [] {
      NoLines();
    } else {
      FirstLineBack(lines[0], ending, Terminate(lines[1..], ending));
      LinesOfTerminated(lines[1..], ending);
    }
  }

  lemma NoLines()
    ensures Lines([]) == []
  {
  }

  predicate BareLfAt(s: string, i: nat) {
    i < |s| && s[i] == LF && (i == 0 || s[i - 1] != CR)
  }

  predicate CrLfAt(s: string, i: nat) {
    0 < i < |s| && s[i] == LF && s[i - 1] == CR
  }

  /** A newline with no carriage return before it. */
  predicate HasBareLf(s: string) {
    exists i | 0 <= i < |s| :: BareLfAt(s, i)
  }

  /** A newline with a carriage return before it. */
  predicate HasCrLf(s: string) {
    exists i | 0 <= i < |s| :: CrLfAt(s, i)
  }

  lemma ContainsCrLf(s: string)
    ensures Contains(s, CRLF) <==> HasCrLf(s)
  {
    if Contains(s, CRLF) {
      var i :| 0 <= i <= |s| && StartsAt(s, CRLF, i);
      assert s[i] == s[i..i + 2][0] && s[i + 1] == s[i..i + 2][1];
      assert CrLfAt(s, i + 1);
    }
    if HasCrLf(s) {
      var i :| 0 <= i < |s| && CrLfAt(s, i);
      assert s[i - 1..i + 1] == CRLF;
      assert StartsAt(s, CRLF, i - 1);
    }
  }

  /** The newlines of a joined text: the one that ends the first line, and those of the rest. */
  lemma FirstEnding(line: string, ending: string, rest: string)
    requires LF !in line && (ending == CRLF || ending == [LF])
    ensures var all := line + ending + rest;
      && (HasBareLf(all) <==> (ending == [LF] && !CrEnded(line)) || HasBareLf(rest))
      && (HasCrLf(all) <==> ending == CRLF || CrEnded(line) || HasCrLf(rest))
  {
    var all, shift := line + ending + rest, |line| + |ending|;
    forall i | 0 <= i < |rest|
      ensures BareLfAt(rest, i) <==> BareLfAt(all, shift + i)
      ensures CrLfAt(rest, i) <==> CrLfAt(all, shift + i)
    {
      assert all[shift + i] == rest[i] && (i > 0 ==> all[shift + i - 1] == rest[i - 1]);
      assert i == 0 ==> all[shift - 1] == LF;
    }
    assert BareLfAt(all, shift - 1) <==> ending == [LF] && !CrEnded(line);
    assert CrLfAt(all, shift - 1) <==> ending == CRLF || CrEnded(line);
    forall i | 0 <= i < shift - 1 ensures !BareLfAt(all, i) && !CrLfAt(all, i) {
      assert i < |line| ==> all[i] == line[i] && line[i] in line;
    }
    BareInRest(all, rest, shift);
  }

  lemma BareInRest(all: string, rest: string, shift: nat)
    requires 0 < shift && |all| == shift + |rest|
    requires forall i | 0 <= i < |rest| :: BareLfAt(rest, i) <==> BareLfAt(all, shift + i)
    requires forall i | 0 <= i < |rest| :: CrLfAt(rest, i) <==> CrLfAt(all, shift + i)
    requires forall i | 0 <= i < shift - 1 :: !BareLfAt(all, i) && !CrLfAt(all, i)
    ensures HasBareLf(all) <==> BareLfAt(all, shift - 1) || HasBareLf(rest)
    ensures HasCrLf(all) <==> CrLfAt(all, shift - 1) || HasCrLf(rest)
  {
    hide BareLfAt, CrLfAt;
    forall i | shift <= i < |all|
      ensures BareLfAt(rest, i - shift) <==> BareLfAt(all, i)
      ensures CrLfAt(rest, i - shift) <==> CrLfAt(all, i)
    {
      assert shift + (i - shift) == i;
    }
  }

  predicate SomeCrEnded(lines: seq<string>) {
    exists k | 0 <= k < |lines| :: CrEnded(lines[k])
  }

  lemma {:induction false} JoinedWithCrLf(lines: seq<string>)
    requires LfFree(lines)
    ensures !HasBareLf(Terminate(lines, CRLF)) && (lines != [] ==> HasCrLf(Terminate(lines, CRLF)))
  {
    hide HasBareLf, HasCrLf, CrEnded;
    if lines == [] {
      NoEndings();
    } else {
      JoinedWithCrLf(lines[1..]);
      FirstEnding(lines[0], CRLF, Terminate(lines[1..], CRLF));
    }
  }

  lemma NoEndings()
    ensures !HasBareLf([]) && !HasCrLf([])
  {
  }

  lemma {:induction false} JoinedWithLf(lines: seq<string>)
    requires LfFree(lines)
    ensures HasCrLf(Terminate(lines, [LF])) <==> SomeCrEnded(lines)
    ensures CrCount(lines) < |lines| ==> HasBareLf(Terminate(lines, [LF]))
    ensures CrCount(lines) <= |lines|
  {
    hide HasBareLf, HasCrLf, CrEnded;
    if lines == [] {
      NoEndings();
    } else {
      JoinedWithLf(lines[1..]);
      FirstEnding(lines[0], [LF], Terminate(lines[1..], [LF]));
      assert SomeCrEnded(lines) <==> CrEnded(lines[0]) || SomeCrEnded(lines[1..]) by {
        assert forall k | 1 <= k < |lines| :: lines[k] == lines[1..][k - 1];
      }
    }
  }

  /** Only the last, unterminated line of a text without CRLF can end in a carriage return. */
  lemma {:induction false} SplitLines(source: string)
    ensures LfFree(Lines(source))
    ensures !HasCrLf(source) ==> CrCount(Lines(source)) <= 1
    decreases source
  {
    if source != [] {
      var end := LineLength(source);
      if end == |source| {
        assert source[..end] == source && [source][1..] == [];
      } else {
        var line, rest := source[..end], source[end + 1..];
        SplitLines(rest);
        assert Lines(source) == [StripCr(line)] + Lines(rest) && ([StripCr(line)] + Lines(rest))[1..] == Lines(rest);
        assert source == line + [LF] + rest;
        FirstEnding(line, [LF], rest);
      }
    }
  }

  // Idempotence of the text patch.

  lemma PatchAgain(source: string)
    requires LineEnding(source) == CRLF || !SomeCrEnded(PatchLines(Lines(source)))
    ensures WithRequiredSections(WithRequiredSections(source)) == WithRequiredSections(source)
  {
    hide PatchLines, Lines, Terminate, CrEnded, LfFree;
    var lines, ending := PatchLines(Lines(source)), LineEnding(source);
    var updated := WithRequiredSections(source);
    SplitLines(source);
    PatchedLinesTame(Lines(source));
    PatchLinesIdempotent(Lines(source));
    LinesOfTerminated(lines, ending);
    ContainsCrLf(updated);
    if ending == CRLF {
      JoinedWithCrLf(lines);
    } else {
      JoinedWithLf(lines);
    }
  }

  /** What decides is whether a patched line still ends in a carriage return. */
  lemma PatchedEndingsDecide(source: string)
    ensures WithRequiredSections(WithRequiredSections(source)) == WithRequiredSections(source)
       <==> Contains(source, CRLF) || !SomeCrEnded(PatchLines(Lines(source)))
  {
    hide PatchLines, Lines, Terminate, CrEnded, LfFree, CrCount, Contains, HasBareLf, HasCrLf;
    var lines, updated := PatchLines(Lines(source)), WithRequiredSections(source);
    if Contains(source, CRLF) || !SomeCrEnded(lines) {
      PatchAgain(source);
    } else {
      SplitLines(source);
      ContainsCrLf(source);
      PatchedLinesTame(Lines(source));
      JoinedWithLf(lines);
      ContainsCrLf(updated);
      SplitLines(updated);
      PatchedLinesTame(Lines(updated));
      JoinedWithCrLf(PatchLines(Lines(updated)));
      assert HasBareLf(updated) && !HasBareLf(WithRequiredSections(updated));
    }
  }

  // Inputs on which a promise fails.

  /** A section in the wrong case is patched but not seen by the reader. */
  lemma WrongCaseStaysOff()
    ensures !Enabled(ReadLines(FRESH_READER, PatchLines(["[power]"])).table, "Power")
  {
    hide Enabled, ReadLines, PatchLines, Split, IsHeader, HeaderName, Lower;
    var line := "[power]";
    PowerIgnoringCase();
    OneLineSplits(line);
    assert Names(Split([line])[1], "Power");
    assert REQUIRED_COMPONENTS[1] == "Power";
    EnabledIff([line], 1);
  }

  lemma PowerIgnoringCase()
    ensures SameIgnoringCase("power", "Power") && "power" != "Power"
    ensures IsHeader("[power]") && HeaderName("[power]") == "power"
  {
    hide IsHeader, HeaderName;
    assert Lower("power") == Lower("Power");
    assert "power"[0] == 'p' && "Power"[0] == 'P';
    assert "[" + "power" + "]" == "[power]";
    ComponentHeader("power");
  }

  /** A lone carriage return at the end of the file. */
  lemma LoneCarriageReturn()
    ensures WithRequiredSections(WithRequiredSections("x\r")) != WithRequiredSections("x\r")
  {
    hide WithRequiredSections, PatchFrom, Split;
    var source := "x\r";
    assert !HasCrLf(source);
    ContainsCrLf(source);
    assert LineLength(source) == 2 by {
      assert source[1..] == "\r" && "\r"[1..] == "";
    }
    assert Lines(source) == [source];
    assert "x"[..1] == "x" && Trim(source) == "x" by {
      assert source[..1] == "x" && TrimStart(source) == source && TrimEnd(source) == TrimEnd("x") == "x";
    }
    assert !IsHeader(source) by { ShortIsNoHeader(source); }
    OneLineSplits(source);
    FirstSectionStays([Section(None, [source])], 0);
    assert PatchLines([source])[0] == source;
    PatchedEndingsDecide(source);
  }

  lemma ShortIsNoHeader(line: string)
    requires |Trim(line)| < 2
    ensures !IsHeader(line)
  {
  }

  lemma OneLineSplits(line: string)
    ensures Split([line]) == if IsHeader(line) then [PREAMBLE, Section(Some(HeaderName(line)), [line])]
                             else [Section(None, [line])]
  {
    hide IsHeader, HeaderName;
    assert [line][1..] == [] && [] + [line] == [line];
    if IsHeader(line) {
      var header := Section(Some(HeaderName(line)), [line]);
      assert [PREAMBLE] + [header] == [PREAMBLE, header];
      assert SplitOnto([PREAMBLE], [line]) == SplitOnto([PREAMBLE, header], []);
    } else {
      assert Extended([PREAMBLE], line) == [Section(None, [line])];
      assert SplitOnto([PREAMBLE], [line]) == SplitOnto([Section(None, [line])], []);
    }
  }

  /** The lines before the first header are never touched. */
  lemma {:induction false} FirstSectionStays(sections: seq<Section>, k: nat)
    requires k <= 5 && sections != [] && sections[0].name.None?
    ensures PatchFrom(sections, k) != [] && PatchFrom(sections, k)[0] == sections[0]
    decreases 5 - k
  {
    hide NewSection, UpsertAll;
    if k < 5 {
      FirstSectionStays(PatchComponent(sections, REQUIRED_COMPONENTS[k]), k + 1);
    }
  }

  // The loops.

  /** Rewrites every line that sets the key, or appends one. */
  method UpsertSetting(lines: seq<string>, key: string, value: string) returns (updated: seq<string>)
    ensures updated == Upsert(lines, key, value)
  {
    hide Replacement, SameIgnoringCase;
    updated := lines;
    var found := false;
    for i := 1 to Max(|lines|, 1)
      invariant |updated| == |lines| && forall k | i <= k < |lines| :: updated[k] == lines[k]
      invariant forall k | 0 <= k < i && k < |lines| ::
        updated[k] == if k > 0 && Assigns(lines[k], key) then Replacement(lines[k], key, value) else lines[k]
      invariant found <==> exists k | 1 <= k < i :: Assigns(lines[k], key)
    {
      AssignsHasKey(lines[i], key);
      if Assigns(lines[i], key) {
        updated := updated[i := Replacement(lines[i], key, value)];
        found := true;
      }
    }
    if found {
      assert updated == Rewritten(lines, key, value);
    } else {
      assert updated == lines;
      updated := updated + [key + "=" + value];
    }
  }

  method UpsertRequired(lines: seq<string>, component: string) returns (updated: seq<string>)
    ensures updated == UpsertAll(lines, RequiredSettings(component))
  {
    hide Upsert, RequiredSettings;
    var settings := RequiredSettings(component);
    updated := lines;
    for i := 0 to |settings|
      invariant UpsertAll(updated, settings[i..]) == UpsertAll(lines, settings)
    {
      assert settings[i..][1..] == settings[i + 1..];
      updated := UpsertSetting(updated, settings[i].key, settings[i].value);
    }
  }

  method RequireComponent(sections: seq<Section>, component: string) returns (patched: seq<Section>)
    ensures patched == PatchComponent(sections, component)
  {
    hide UpsertAll, RequiredSettings, Names;
    patched := sections;
    var found := false;
    for i := 0 to |sections|
      invariant |patched| == |sections| && patched[i..] == sections[i..]
      invariant forall k | 0 <= k < i :: patched[k] == PatchSection(sections[k], component)
      invariant found <==> exists k | 0 <= k < i :: Names(sections[k], component)
    {
      if Names(sections[i], component) {
        var lines := UpsertRequired(sections[i].lines, component);
        patched := patched[i := sections[i].(lines := lines)];
        found := true;
      }
    }
    assert patched == PatchEach(sections, component);
    if !found {
      var lines := UpsertRequired(["[" + component + "]"], component);
      patched := patched + [Section(Some(component), lines)];
    }
  }

  method SplitSections(lines: seq<string>) returns (sections: seq<Section>)
    ensures sections == Split(lines)
  {
    hide IsHeader, HeaderName;
    sections := [PREAMBLE];
    for i := 0 to |lines|
      invariant sections != [] && SplitOnto(sections, lines[i..]) == Split(lines)
    {
      assert lines[i..][1..] == lines[i + 1..];
      sections := if IsHeader(lines[i]) then sections + [Section(Some(HeaderName(lines[i])), [lines[i]])]
                  else Extended(sections, lines[i]);
    }
  }

  /** The proposed text of `log.config`. */
  method RequireSections(source: string) returns (updated: string)
    ensures updated == WithRequiredSections(source)
  {
    hide PatchComponent, Split, Lines;
    var sections := SplitSections(Lines(source));
    for k := 0 to 5
      invariant PatchFrom(sections, k) == Patch(Split(Lines(source)))
    {
      sections := RequireComponent(sections, REQUIRED_COMPONENTS[k]);
    }
    return Terminate(Flatten(sections), LineEnding(source));
  }
}
