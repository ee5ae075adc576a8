/** When patching the text of `log.config` twice is patching it once, as a condition on the text. */
module ConfigEndings {
  import opened Text
  import opened ConfigLines
  import opened ConfigPatch
  import opened ConfigSections
  import opened ConfigText

  // One line that ends in a carriage return.

  predicate HasComment(line: string) {
    KeyOf(line).Some? && CommentStart(ValuePart(line)) < |ValuePart(line)|
  }

  /** A rewritten line ends as its comment does. */
  lemma ReplacementEnding(line: string, key: string, value: string)
    requires PlainWord(key) && PlainWord(value) && KeyOf(line).Some? && CrEnded(line)
    ensures var after := Replacement(line, key, value);
      && (CrEnded(after) <==> HasComment(line))
      && (HasComment(after) <==> HasComment(line))
  {
    hide PlainWord, IsComment, CommentOf, CommentStart, AllSpaces, TrimStart;
    WordEnds(value);
    NotEmpty(value);
    TrimStartSplits(line);
    var part := ValuePart(line);
    var comment := CommentOf(part);
    CommentOfShape(part);
    SettingParts(IndentOf(line), key, value, comment);
    CommentFound(value, comment);
    assert Replacement(line, key, value) == SettingLine(IndentOf(line), key, value, comment);
    CommentEnding(value + comment);
    CommentEnding(part);
  }

  // The lines of one section.

  /** Only line `p` ends in a carriage return. */
  predicate OnlyCr(lines: seq<string>, p: nat) {
    && p < |lines| && CrEnded(lines[p])
    && forall i | 0 <= i < |lines| && i != p :: !CrEnded(lines[i])
  }

  predicate LosesCr(line: string, settings: seq<Setting>) {
    Required(line, settings) && !HasComment(line)
  }

  lemma UpsertEnding(lines: seq<string>, p: nat, key: string, value: string)
    requires PlainWord(key) && PlainWord(value) && OnlyCr(lines, p)
    ensures var after := Upsert(lines, key, value);
      && |after| >= |lines|
      && if p > 0 && Assigns(lines[p], key) && !HasComment(lines[p]) then !SomeCrEnded(after)
         else
           && OnlyCr(after, p)
           && if p > 0 && Assigns(lines[p], key) then HasComment(after[p]) else after[p] == lines[p]
  {
    hide PlainWord, Replacement, Assigns, CrEnded, HasComment;
    var after := Upsert(lines, key, value);
    PlainLineEnds(key, value);
    forall i | 0 <= i < |lines| && i != p ensures !CrEnded(after[i]) {
      AssignsHasKey(lines[i], key);
      if Assigns(lines[i], key) {
        ReplacementTame(lines[i], key, value);
      }
    }
    AssignsHasKey(lines[p], key);
    if p > 0 && Assigns(lines[p], key) {
      ReplacementEnding(lines[p], key, value);
    }
  }

  lemma {:induction false} UpsertAllNoCr(lines: seq<string>, settings: seq<Setting>)
    requires Plain(settings) && !SomeCrEnded(lines)
    ensures !SomeCrEnded(UpsertAll(lines, settings))
    decreases settings
  {
    hide UpsertAll, Plain, LfFree;
    UpsertAllTame(lines, settings);
    SomeIsCounted(lines);
    SomeIsCounted(UpsertAll(lines, settings));
  }

  lemma {:induction false} SomeIsCounted(lines: seq<string>)
    ensures SomeCrEnded(lines) <==> CrCount(lines) > 0
  {
    hide CrEnded;
    if lines != [] {
      SomeIsCounted(lines[1..]);
      assert SomeCrEnded(lines) <==> CrEnded(lines[0]) || SomeCrEnded(lines[1..]) by {
        assert forall k | 1 <= k < |lines| :: lines[k] == lines[1..][k - 1];
      }
    }
  }

  lemma {:induction false} UpsertAllEnding(lines: seq<string>, p: nat, settings: seq<Setting>)
    requires Plain(settings) && OnlyCr(lines, p)
    ensures SomeCrEnded(UpsertAll(lines, settings)) <==> !(p > 0 && LosesCr(lines[p], settings))
    decreases settings
  {
    hide Upsert, PlainWord, Assigns, CrEnded, HasComment, SameIgnoringCase;
    if settings != [] {
      var key, rest := settings[0].key, settings[1..];
      var next := Upsert(lines, key, settings[0].value);
      UpsertEnding(lines, p, key, settings[0].value);
      assert Required(lines[p], settings) <==> Assigns(lines[p], key) || Required(lines[p], rest) by {
        assert forall i | 1 <= i < |settings| :: settings[i] == rest[i - 1];
      }
      if SomeCrEnded(next) {
        UpsertAllEnding(next, p, rest);
      } else {
        UpsertAllNoCr(next, rest);
      }
    }
  }

  // The sections.

  function SectionPatched(s: Section, k: nat): Section
    requires k <= 5
    decreases 5 - k
  {
    if k == 5 then s else SectionPatched(PatchSection(s, REQUIRED_COMPONENTS[k]), k + 1)
  }

  lemma {:induction false} NoFurtherPatch(s: Section, k: nat)
    requires k <= 5 && ComponentFrom(s, k).None?
    ensures SectionPatched(s, k) == s
    decreases 5 - k
  {
    hide Names, UpsertAll;
    if k < 5 {
      NoFurtherPatch(s, k + 1);
    }
  }

  /** A section is patched for its own component only. */
  lemma {:induction false} PatchedOnce(s: Section, k: nat)
    requires k <= 5
    ensures SectionPatched(s, k)
         == if ComponentFrom(s, k).Some? then PatchSection(s, ComponentFrom(s, k).value) else s
    decreases 5 - k
  {
    hide UpsertAll, SameIgnoringCase, RequiredSettings;
    if ComponentFrom(s, k).None? {
      NoFurtherPatch(s, k);
    } else if Names(s, REQUIRED_COMPONENTS[k]) {
      var after := PatchSection(s, REQUIRED_COMPONENTS[k]);
      assert after.name == s.name;
      SameNameSameComponent(s, after, k + 1);
      NoOtherComponent(s, k, k + 1);
      NoFurtherPatch(after, k + 1);
    } else {
      PatchedOnce(s, k + 1);
    }
  }

  lemma {:induction false} NoOtherComponent(s: Section, c: nat, k: nat)
    requires c < k <= 5 && Names(s, REQUIRED_COMPONENTS[c])
    ensures ComponentFrom(s, k).None?
    decreases 5 - k
  {
    hide Names;
    if k < 5 {
      OneComponent(s, c, k);
      NoOtherComponent(s, c, k + 1);
    }
  }

  lemma TameKeepsNone(before: seq<string>, after: seq<string>)
    requires Tame(before, after) && !SomeCrEnded(before)
    ensures !SomeCrEnded(after)
  {
    SomeIsCounted(before);
    SomeIsCounted(after);
  }

  lemma {:induction false} PatchEachConcat(a: seq<Section>, b: seq<Section>, component: string)
    ensures PatchEach(a + b, component) == PatchEach(a, component) + PatchEach(b, component)
  {
    hide PatchSection;
  }

  /** Sections without a carriage return around one section. */
  predicate Around(before: seq<Section>, after: seq<Section>) {
    !SomeCrEnded(Flatten(before)) && !SomeCrEnded(Flatten(after))
  }

  /** What patching a component does to the sections around one section. */
  lemma PatchAround(before: seq<Section>, s: Section, after: seq<Section>, k: nat) returns (b: seq<Section>, a: seq<Section>)
    requires k < 5 && Around(before, after)
    ensures Around(b, a)
    ensures PatchComponent(before + [s] + after, REQUIRED_COMPONENTS[k])
         == b + [PatchSection(s, REQUIRED_COMPONENTS[k])] + a
  {
    hide PatchSection, Mentions, NewSection, Flatten, SomeCrEnded, PlainWord, Tame;
    var component := REQUIRED_COMPONENTS[k];
    b, a := PatchEach(before, component), PatchEach(after, component);
    PatchEachConcat(before + [s], after, component);
    PatchEachConcat(before, [s], component);
    assert PatchEach([s], component) == [PatchSection(s, component)];
    PatchEachTame(before, component);
    TameKeepsNone(Flatten(before), Flatten(b));
    PatchEachTame(after, component);
    TameKeepsNone(Flatten(after), Flatten(a));
    if !Mentions(before + [s] + after, component) {
      ComponentsArePlain();
      NewSectionTame(component);
      NoLinesNoCr();
      TameKeepsNone([], NewSection(component).lines);
      FlattenConcat(a, [NewSection(component)]);
      FlattenOne(NewSection(component));
      NoneInEither(Flatten(a), NewSection(component).lines);
      assert b + [PatchSection(s, component)] + a + [NewSection(component)]
          == b + [PatchSection(s, component)] + (a + [NewSection(component)]);
      a := a + [NewSection(component)];
    }
  }

  lemma NoLinesNoCr()
    ensures !SomeCrEnded([])
  {
  }

  lemma NoneInEither(a: seq<string>, b: seq<string>)
    ensures SomeCrEnded(a + b) <==> SomeCrEnded(a) || SomeCrEnded(b)
  {
    hide CrEnded;
    assert forall i | 0 <= i < |a| :: (a + b)[i] == a[i];
    assert forall i | 0 <= i < |b| :: (a + b)[|a| + i] == b[i];
  }

  lemma FlattenAround(before: seq<Section>, s: Section, after: seq<Section>)
    requires Around(before, after)
    ensures SomeCrEnded(Flatten(before + [s] + after)) <==> SomeCrEnded(s.lines)
  {
    hide SomeCrEnded, Flatten;
    FlattenConcat(before + [s], after);
    FlattenConcat(before, [s]);
    FlattenOne(s);
    NoneInEither(Flatten(before) + s.lines, Flatten(after));
    NoneInEither(Flatten(before), s.lines);
  }

  lemma {:induction false} PatchFromAround(before: seq<Section>, s: Section, after: seq<Section>, k: nat)
    requires k <= 5 && Around(before, after)
    ensures SomeCrEnded(Flatten(PatchFrom(before + [s] + after, k))) <==> SomeCrEnded(SectionPatched(s, k).lines)
    decreases 5 - k
  {
    hide PatchComponent, PatchSection, SomeCrEnded, Flatten, Around;
    if k == 5 {
      FlattenAround(before, s, after);
    } else {
      var b, a := PatchAround(before, s, after, k);
      PatchFromAround(b, PatchSection(s, REQUIRED_COMPONENTS[k]), a, k + 1);
    }
  }

  // The text.

  /** Without a CRLF only the last line can end in a carriage return, and it does if the text does. */
  lemma {:induction false} LastEnding(source: string)
    requires !HasCrLf(source)
    ensures CrCount(Lines(source)) == if CrEnded(source) then 1 else 0
    ensures CrEnded(source) ==> Lines(source) != [] && CrEnded(Lines(source)[|Lines(source)| - 1])
    decreases source
  {
    hide HasCrLf, HasBareLf;
    if source != [] {
      var end := LineLength(source);
      if end == |source| {
        assert source[..end] == source && [source][1..] == [];
      } else {
        var line, rest := source[..end], source[end + 1..];
        assert source == line + [LF] + rest;
        FirstEnding(line, [LF], rest);
        LastEnding(rest);
        assert Lines(source) == [line] + Lines(rest) && ([line] + Lines(rest))[1..] == Lines(rest);
        assert rest != [] ==> rest[|rest| - 1] == source[|source| - 1];
      }
    }
  }

  /** The last line sets a required key of its section and carries no comment. */
  predicate EndsInSetting(source: string) {
    var sections := Split(Lines(source));
    sections != []
    && var last := sections[|sections| - 1];
    && ComponentFrom(last, 0).Some? && |last.lines| > 1
    && LosesCr(last.lines[|last.lines| - 1], RequiredSettings(ComponentFrom(last, 0).value))
  }

  lemma {:induction false} LastSection(sections: seq<Section>)
    requires WellFormed(sections) && Flatten(sections) != []
    ensures var last := sections[|sections| - 1];
      && last.lines != []
      && Flatten(sections) == Flatten(sections[..|sections| - 1]) + last.lines
  {
    hide Flatten, IsHeader, HeaderName;
    var m := |sections| - 1;
    assert sections == sections[..m] + [sections[m]];
    FlattenConcat(sections[..m], [sections[m]]);
    FlattenOne(sections[m]);
    if m == 0 {
      assert sections[..m] == [];
      NothingFlat();
    } else {
      SectionNotEmpty(sections[m]);
    }
  }

  lemma NothingFlat()
    ensures Flatten([]) == []
  {
  }

  lemma LastLineDecides(source: string)
    requires !HasCrLf(source) && CrEnded(source)
    ensures SomeCrEnded(PatchLines(Lines(source))) <==> !EndsInSetting(source)
  {
    hide Lines, Split, Flatten, CrEnded, HasCrLf, WellFormed, ComponentFrom, LosesCr, UpsertAll, RequiredSettings, Names,
      PatchFrom, Plain;
    var lines, sections := Lines(source), Split(Lines(source));
    LastEnding(source);
    SplitOk(lines);
    LastSection(sections);
    var m := |sections| - 1;
    var last := sections[m];
    var p := |last.lines| - 1;
    OnlyLastEnds(Flatten(sections[..m]), last.lines);
    assert sections == sections[..m] + [last] + [];
    NothingFlat();
    NoLinesNoCr();
    PatchFromAround(sections[..m], last, [], 0);
    PatchedOnce(last, 0);
    if ComponentFrom(last, 0).Some? {
      var component := ComponentFrom(last, 0).value;
      ComponentNames(last, 0);
      RequiredArePlain(component);
      UpsertAllEnding(last.lines, p, RequiredSettings(component));
    } else {
      assert CrEnded(last.lines[p]);
    }
  }

  lemma {:induction false} ComponentNames(s: Section, k: nat)
    requires k <= 5 && ComponentFrom(s, k).Some?
    ensures Names(s, ComponentFrom(s, k).value)
    decreases 5 - k
  {
    hide Names;
    if k < 5 && !Names(s, REQUIRED_COMPONENTS[k]) {
      ComponentNames(s, k + 1);
    }
  }

  lemma OnlyLastEnds(a: seq<string>, b: seq<string>)
    requires b != [] && CrCount(a + b) == 1 && CrEnded((a + b)[|a + b| - 1])
    ensures !SomeCrEnded(a) && OnlyCr(b, |b| - 1)
  {
    hide CrEnded;
    var init, line := b[..|b| - 1], b[|b| - 1];
    assert b == init + [line] && (a + b)[|a + b| - 1] == line;
    CrCountConcat(a, b);
    CrCountConcat(init, [line]);
    assert [line][1..] == [] && CrCount([line]) == 1;
    SomeIsCounted(a);
    SomeIsCounted(init);
    assert forall i | 0 <= i < |init| :: b[i] == init[i];
  }

  /** Patching the text a second time changes nothing if and only if the text has a CRLF, does not end in a carriage
      return, or ends in a required setting without a comment. */
  lemma TextPatchIdempotentIff(source: string)
    ensures WithRequiredSections(WithRequiredSections(source)) == WithRequiredSections(source)
       <==> Contains(source, CRLF) || !CrEnded(source) || EndsInSetting(source)
  {
    hide WithRequiredSections, PatchLines, Lines, CrEnded, Contains, HasCrLf, EndsInSetting, SomeCrEnded, Tame;
    PatchedEndingsDecide(source);
    ContainsCrLf(source);
    if !HasCrLf(source) {
      if CrEnded(source) {
        LastLineDecides(source);
      } else {
        LastEnding(source);
        SomeIsCounted(Lines(source));
        PatchedLinesTame(Lines(source));
        TameKeepsNone(Lines(source), PatchLines(Lines(source)));
      }
    }
  }
}
