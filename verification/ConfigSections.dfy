/** Sections of `log.config`: splitting, patching and reading a whole file. */
module ConfigSections {
  import opened Prelude
  import opened Text
  import opened ConfigLines
  import opened ConfigPatch

  datatype Section = Section(name: Option<string>, lines: seq<string>)

  // Splitting and joining.

  function Extended(sections: seq<Section>, line: string): seq<Section>
    requires sections != []
  {
    var last := sections[|sections| - 1];
    sections[|sections| - 1 := last.(lines := last.lines + [line])]
  }

  function SplitOnto(sections: seq<Section>, lines: seq<string>): seq<Section>
    requires sections != []
    decreases lines
  {
    if lines == [] then sections
    else if IsHeader(lines[0])
    then SplitOnto(sections + [Section(Some(HeaderName(lines[0])), [lines[0]])], lines[1..])
    else SplitOnto(Extended(sections, lines[0]), lines[1..])
  }

  const PREAMBLE := Section(None, [])

  function Split(lines: seq<string>): seq<Section> {
    SplitOnto([PREAMBLE], lines)
  }

  function Flatten(sections: seq<Section>): seq<string> {
    if sections == [] then [] else sections[0].lines + Flatten(sections[1..])
  }

  predicate NoHeaders(lines: seq<string>) {
    forall i | 0 <= i < |lines| :: !IsHeader(lines[i])
  }

  predicate SectionOk(s: Section) {
    && s.lines != [] && IsHeader(s.lines[0]) && s.name == Some(HeaderName(s.lines[0])) && NoHeaders(s.lines[1..])
  }

  predicate WellFormed(sections: seq<Section>) {
    && sections != [] && sections[0].name.None? && NoHeaders(sections[0].lines)
    && forall i | 1 <= i < |sections| :: SectionOk(sections[i])
  }

  lemma {:induction false} FlattenConcat(a: seq<Section>, b: seq<Section>)
    ensures Flatten(a + b) == Flatten(a) + Flatten(b)
  {
    if a == [] {
      assert a + b == b;
    } else {
      assert (a + b)[0] == a[0] && (a + b)[1..] == a[1..] + b;
      FlattenConcat(a[1..], b);
    }
  }

  lemma FlattenOne(s: Section)
    ensures Flatten([s]) == s.lines
  {
    assert [s][1..] == [] && s.lines + [] == s.lines;
  }

  lemma ExtendedFlattens(sections: seq<Section>, line: string)
    requires sections != []
    ensures Flatten(Extended(sections, line)) == Flatten(sections) + [line]
  {
    var init, last := sections[..|sections| - 1], sections[|sections| - 1];
    var longer := last.(lines := last.lines + [line]);
    assert sections == init + [last] && Extended(sections, line) == init + [longer];
    FlattenConcat(init, [last]);
    FlattenConcat(init, [longer]);
    FlattenOne(last);
    FlattenOne(longer);
  }

  /** Splitting loses no line and makes well-formed sections. */
  lemma {:induction false} SplitKeepsLines(sections: seq<Section>, lines: seq<string>)
    requires WellFormed(sections)
    ensures WellFormed(SplitOnto(sections, lines)) && Flatten(SplitOnto(sections, lines)) == Flatten(sections) + lines
    decreases lines
  {
    hide IsHeader, HeaderName;
    if lines == [] {
    } else if IsHeader(lines[0]) {
      var header := Section(Some(HeaderName(lines[0])), [lines[0]]);
      FlattenConcat(sections, [header]);
      FlattenOne(header);
      SplitKeepsLines(sections + [header], lines[1..]);
      assert Flatten(sections) + [lines[0]] + lines[1..] == Flatten(sections) + lines;
    } else {
      ExtendedFlattens(sections, lines[0]);
      ExtendedOk(sections, lines[0]);
      SplitKeepsLines(Extended(sections, lines[0]), lines[1..]);
      assert Flatten(sections) + [lines[0]] + lines[1..] == Flatten(sections) + lines;
    }
  }

  lemma ExtendedOk(sections: seq<Section>, line: string)
    requires WellFormed(sections) && !IsHeader(line)
    ensures WellFormed(Extended(sections, line))
  {
    hide IsHeader, HeaderName;
    var k := |sections| - 1;
    var longer := Extended(sections, line);
    if k > 0 {
      assert longer[k].lines[1..] == sections[k].lines[1..] + [line];
    }
    forall i | 1 <= i < |longer| ensures SectionOk(longer[i]) {
      assert SectionOk(sections[i]);
    }
  }

  lemma {:induction false} SplitRun(sections: seq<Section>, run: seq<string>, rest: seq<string>)
    requires sections != [] && NoHeaders(run)
    ensures var last := sections[|sections| - 1];
      SplitOnto(sections, run + rest)
      == SplitOnto(sections[|sections| - 1 := last.(lines := last.lines + run)], rest)
    decreases run
  {
    hide IsHeader, HeaderName;
    var k := |sections| - 1;
    var last := sections[k];
    if run == [] {
      assert run + rest == rest && last.lines + [] == last.lines;
      assert sections[k := last.(lines := last.lines + run)] == sections;
    } else {
      var longer := Extended(sections, run[0]);
      assert (run + rest)[0] == run[0] && (run + rest)[1..] == run[1..] + rest;
      SplitRun(longer, run[1..], rest);
      assert last.lines + [run[0]] + run[1..] == last.lines + run;
      assert longer[k := longer[k].(lines := longer[k].lines + run[1..])] == sections[k := last.(lines := last.lines + run)];
    }
  }

  lemma SectionSplits(done: seq<Section>, s: Section, rest: seq<string>)
    requires done != [] && SectionOk(s)
    ensures SplitOnto(done, s.lines + rest) == SplitOnto(done + [s], rest)
  {
    hide IsHeader, HeaderName;
    var header, run := s.lines[0], s.lines[1..];
    var begun := done + [Section(s.name, [header])];
    assert s.lines + rest == [header] + (run + rest);
    assert ([header] + (run + rest))[1..] == run + rest;
    SplitRun(begun, run, rest);
    assert [header] + run == s.lines;
    assert begun[|done| := begun[|done|].(lines := begun[|done|].lines + run)] == done + [s];
  }

  /** Splitting what well-formed sections flatten to gives them back. */
  lemma {:induction false} SplitFlattened(done: seq<Section>, sections: seq<Section>)
    requires done != [] && forall i | 0 <= i < |sections| :: SectionOk(sections[i])
    ensures SplitOnto(done, Flatten(sections)) == done + sections
    decreases sections
  {
    hide SectionOk;
    if sections == [] {
      assert done + sections == done;
    } else {
      SectionSplits(done, sections[0], Flatten(sections[1..]));
      SplitFlattened(done + [sections[0]], sections[1..]);
      assert done + [sections[0]] + sections[1..] == done + sections;
    }
  }

  lemma SplitOfFlatten(sections: seq<Section>)
    requires WellFormed(sections)
    ensures Split(Flatten(sections)) == sections
  {
    hide IsHeader, HeaderName, SectionOk;
    var first, rest := sections[0], Flatten(sections[1..]);
    SplitRun([PREAMBLE], first.lines, rest);
    assert [] + first.lines == first.lines;
    assert [PREAMBLE][0 := PREAMBLE.(lines := first.lines)] == [first];
    SplitFlattened([first], sections[1..]);
    assert [first] + sections[1..] == sections;
  }

  // Patching.

  predicate Names(s: Section, component: string) {
    s.name.Some? && SameIgnoringCase(s.name.value, component)
  }

  predicate Mentions(sections: seq<Section>, component: string) {
    exists i | 0 <= i < |sections| :: Names(sections[i], component)
  }

  function PatchSection(s: Section, component: string): Section {
    if Names(s, component) then s.(lines := UpsertAll(s.lines, RequiredSettings(component))) else s
  }

  function PatchEach(sections: seq<Section>, component: string): seq<Section> {
    seq(|sections|, i requires 0 <= i < |sections| => PatchSection(sections[i], component))
  }

  function NewSection(component: string): Section {
    Section(Some(component), UpsertAll(["[" + component + "]"], RequiredSettings(component)))
  }

  function PatchComponent(sections: seq<Section>, component: string): seq<Section> {
    PatchEach(sections, component) + (if Mentions(sections, component) then [] else [NewSection(component)])
  }

  function PatchFrom(sections: seq<Section>, k: nat): seq<Section>
    requires k <= 5
    decreases 5 - k
  {
    if k == 5 then sections else PatchFrom(PatchComponent(sections, REQUIRED_COMPONENTS[k]), k + 1)
  }

  function Patch(sections: seq<Section>): seq<Section> {
    PatchFrom(sections, 0)
  }

  lemma {:induction false} UpsertAllKeepsPlainLines(lines: seq<string>, settings: seq<Setting>)
    requires lines != [] && Plain(settings) && NoHeaders(lines[1..])
    ensures UpsertAll(lines, settings) != [] && NoHeaders(UpsertAll(lines, settings)[1..])
    decreases settings
  {
    hide IsHeader, IsSetting, Replacement, Assigns;
    if settings != [] {
      var key, value := settings[0].key, settings[0].value;
      var after := Upsert(lines, key, value);
      forall i | 1 <= i < |after| ensures !IsHeader(after[i]) {
        if i == |lines| {
          PlainSetting(key, value);
          SettingIsNoHeader(after[i], key, value);
        } else {
          assert !IsHeader(lines[1..][i - 1]);
          if Sets(lines, key) && Assigns(lines[i], key) {
            AssignsHasKey(lines[i], key);
            ReplacementIsSetting(lines[i], key, value);
            SettingIsNoHeader(after[i], key, value);
          }
        }
      }
      forall i | 0 <= i < |after[1..]| ensures !IsHeader(after[1..][i]) {
        assert after[1..][i] == after[i + 1];
      }
      UpsertAllKeepsPlainLines(after, settings[1..]);
    }
  }

  /** A section patched for its component is well formed and settled. */
  lemma PatchedSection(s: Section, component: string)
    requires Names(s, component) && SectionOk(s)
    ensures var after := PatchSection(s, component);
      && SectionOk(after) && after.name == s.name && after.lines[0] == s.lines[0]
      && Settled(after.lines, RequiredSettings(component))
      && Others(after.lines[1..], RequiredSettings(component)) == Others(s.lines[1..], RequiredSettings(component))
  {
    hide IsHeader, HeaderName, Upsert, Plain, Settled, Others, NoHeaders;
    var settings := RequiredSettings(component);
    RequiredArePlain(component);
    UpsertAllSettles(s.lines, settings);
    UpsertAllKeepsPlainLines(s.lines, settings);
    UpsertSomeKeepOthers(s.lines, settings, 0);
    assert settings[0..] == settings;
  }

  lemma NewSectionOk(component: string)
    requires PlainWord(component)
    ensures SectionOk(NewSection(component)) && NewSection(component).name == Some(component)
    ensures Names(NewSection(component), component)
    ensures Settled(NewSection(component).lines, RequiredSettings(component))
  {
    hide IsHeader, HeaderName, Upsert, Plain, Settled;
    var settings := RequiredSettings(component);
    RequiredArePlain(component);
    ComponentHeader(component);
    UpsertAllSettles(["[" + component + "]"], settings);
    UpsertAllKeepsPlainLines(["[" + component + "]"], settings);
  }

  // The whole patch.

  /** The components of index below `k` are present, and all their sections settled. */
  ghost predicate Patched(sections: seq<Section>, k: nat)
    requires k <= 5
  {
    forall c | 0 <= c < k ::
      && Mentions(sections, REQUIRED_COMPONENTS[c])
      && forall i | 0 <= i < |sections| && Names(sections[i], REQUIRED_COMPONENTS[c]) ::
           Settled(sections[i].lines, RequiredSettings(REQUIRED_COMPONENTS[c]))
  }

  lemma OneComponent(s: Section, c: nat, d: nat)
    requires c < 5 && d < 5 && c != d && Names(s, REQUIRED_COMPONENTS[c])
    ensures !Names(s, REQUIRED_COMPONENTS[d])
  {
    ComponentsArePlain();
    if c < d {
      assert !SameIgnoringCase(REQUIRED_COMPONENTS[c], REQUIRED_COMPONENTS[d]);
    } else {
      assert !SameIgnoringCase(REQUIRED_COMPONENTS[d], REQUIRED_COMPONENTS[c]);
    }
  }

  lemma PatchEachAt(sections: seq<Section>, k: nat, i: nat)
    requires WellFormed(sections) && k < 5 && i < |sections|
    ensures var component, after := REQUIRED_COMPONENTS[k], PatchSection(sections[i], REQUIRED_COMPONENTS[k]);
      && after.name == sections[i].name && (i == 0 ==> after == sections[i]) && (i > 0 ==> SectionOk(after))
      && (Names(sections[i], component) ==> Settled(after.lines, RequiredSettings(component)))
      && (!Names(sections[i], component) ==> after == sections[i])
  {
    hide SectionOk, Settled, Others, UpsertAll, RequiredSettings, SameIgnoringCase;
    if i > 0 && Names(sections[i], REQUIRED_COMPONENTS[k]) {
      PatchedSection(sections[i], REQUIRED_COMPONENTS[k]);
    }
  }

  lemma PatchComponentStep(sections: seq<Section>, k: nat)
    requires WellFormed(sections) && k < 5 && Patched(sections, k)
    ensures WellFormed(PatchComponent(sections, REQUIRED_COMPONENTS[k]))
    ensures Patched(PatchComponent(sections, REQUIRED_COMPONENTS[k]), k + 1)
  {
    hide SectionOk, Settled, UpsertAll, RequiredSettings, SameIgnoringCase, NewSection;
    var component := REQUIRED_COMPONENTS[k];
    var after := PatchComponent(sections, component);
    ComponentsArePlain();
    NewSectionOk(component);
    forall i | 0 <= i < |sections|
      ensures after[i] == PatchSection(sections[i], component) && after[i].name == sections[i].name
      ensures i == 0 ==> after[i] == sections[i]
      ensures i > 0 ==> SectionOk(after[i])
      ensures Names(sections[i], component) ==> Settled(after[i].lines, RequiredSettings(component))
    {
      PatchEachAt(sections, k, i);
    }
    PatchComponentMentions(sections, k);
    forall c, i | 0 <= c < k + 1 && 0 <= i < |after| && Names(after[i], REQUIRED_COMPONENTS[c])
      ensures Settled(after[i].lines, RequiredSettings(REQUIRED_COMPONENTS[c]))
    {
      if c < k {
        OneComponent(after[i], c, k);
      }
    }
  }

  lemma PatchComponentMentions(sections: seq<Section>, k: nat)
    requires WellFormed(sections) && k < 5
    ensures Mentions(PatchComponent(sections, REQUIRED_COMPONENTS[k]), REQUIRED_COMPONENTS[k])
    ensures forall c | 0 <= c < 5 && Mentions(sections, REQUIRED_COMPONENTS[c]) ::
              Mentions(PatchComponent(sections, REQUIRED_COMPONENTS[k]), REQUIRED_COMPONENTS[c])
  {
    hide SectionOk, Settled, UpsertAll, RequiredSettings, SameIgnoringCase, NewSection;
    var component := REQUIRED_COMPONENTS[k];
    var after := PatchComponent(sections, component);
    ComponentsArePlain();
    NewSectionOk(component);
    forall i | 0 <= i < |sections| ensures after[i].name == sections[i].name {
    }
    forall c | 0 <= c < 5 && Mentions(sections, REQUIRED_COMPONENTS[c])
      ensures Mentions(after, REQUIRED_COMPONENTS[c])
    {
      var i :| 0 <= i < |sections| && Names(sections[i], REQUIRED_COMPONENTS[c]);
      assert Names(after[i], REQUIRED_COMPONENTS[c]);
    }
    if !Mentions(sections, component) {
      assert Names(after[|sections|], component);
    }
  }

  lemma {:induction false} PatchFromSettles(sections: seq<Section>, k: nat)
    requires WellFormed(sections) && k <= 5 && Patched(sections, k)
    ensures WellFormed(PatchFrom(sections, k)) && Patched(PatchFrom(sections, k), 5)
    decreases 5 - k
  {
    hide WellFormed, Patched, PatchComponent;
    if k < 5 {
      PatchComponentStep(sections, k);
      PatchFromSettles(PatchComponent(sections, REQUIRED_COMPONENTS[k]), k + 1);
    }
  }

  lemma PatchComponentStays(sections: seq<Section>, k: nat)
    requires Patched(sections, 5) && k < 5
    ensures PatchComponent(sections, REQUIRED_COMPONENTS[k]) == sections
  {
    hide Settled, UpsertAll, RequiredSettings, SameIgnoringCase, NewSection;
    var component := REQUIRED_COMPONENTS[k];
    RequiredArePlain(component);
    forall i | 0 <= i < |sections| ensures PatchSection(sections[i], component) == sections[i] {
      if Names(sections[i], component) {
        SettledStays(sections[i].lines, RequiredSettings(component));
      }
    }
    assert PatchEach(sections, component) == sections;
  }

  lemma {:induction false} PatchFromStays(sections: seq<Section>, k: nat)
    requires Patched(sections, 5) && k <= 5
    ensures PatchFrom(sections, k) == sections
    decreases 5 - k
  {
    hide Patched, PatchComponent;
    if k < 5 {
      PatchComponentStays(sections, k);
      PatchFromStays(sections, k + 1);
    }
  }

  /** The patch of a file given as its lines. */
  function PatchLines(lines: seq<string>): seq<string> {
    Flatten(Patch(Split(lines)))
  }

  lemma SplitOk(lines: seq<string>)
    ensures WellFormed(Split(lines)) && Flatten(Split(lines)) == lines
  {
    SplitKeepsLines([PREAMBLE], lines);
    FlattenOne(PREAMBLE);
  }

  lemma PatchOk(lines: seq<string>)
    ensures WellFormed(Patch(Split(lines))) && Patched(Patch(Split(lines)), 5)
  {
    hide WellFormed, PatchFrom;
    SplitOk(lines);
    PatchFromSettles(Split(lines), 0);
  }

  /** A file stays as it is if and only if every required component has a section and all its sections are settled. */
  lemma PatchStaysIff(lines: seq<string>)
    ensures PatchLines(lines) == lines <==> Patched(Split(lines), 5)
  {
    hide WellFormed, Patched, PatchFrom, Split, Flatten;
    SplitOk(lines);
    PatchOk(lines);
    SplitOfFlatten(Patch(Split(lines)));
    if Patched(Split(lines), 5) {
      PatchFromStays(Split(lines), 0);
    }
  }

  /** Patching a patched file changes nothing. */
  lemma PatchLinesIdempotent(lines: seq<string>)
    ensures PatchLines(PatchLines(lines)) == PatchLines(lines)
  {
    hide WellFormed, Patched, PatchFrom, Split, Flatten;
    PatchOk(lines);
    SplitOfFlatten(Patch(Split(lines)));
    PatchFromStays(Patch(Split(lines)), 0);
  }

  // What the patch leaves alone.

  /** The required component a section belongs to. */
  function ComponentFrom(s: Section, k: nat): Option<string>
    requires k <= 5
    decreases 5 - k
  {
    if k == 5 then None
    else if Names(s, REQUIRED_COMPONENTS[k]) then Some(REQUIRED_COMPONENTS[k]) else ComponentFrom(s, k + 1)
  }

  /** The lines of a section that set no required key. */
  function KeptLines(s: Section): seq<string> {
    var component := ComponentFrom(s, 0);
    if component.None? || s.lines == [] then s.lines
    else [s.lines[0]] + Others(s.lines[1..], RequiredSettings(component.value))
  }

  function AllKept(sections: seq<Section>): seq<string> {
    if sections == [] then [] else KeptLines(sections[0]) + AllKept(sections[1..])
  }

  /** The headers a patch has to add. */
  function MissingHeaders(sections: seq<Section>, k: nat): seq<string>
    requires k <= 5
    decreases 5 - k
  {
    if k == 5 then []
    else
      (if Mentions(sections, REQUIRED_COMPONENTS[k]) then [] else ["[" + REQUIRED_COMPONENTS[k] + "]"])
      + MissingHeaders(sections, k + 1)
  }

  lemma {:induction false} ComponentIs(s: Section, k: nat, c: nat)
    requires k <= c < 5 && Names(s, REQUIRED_COMPONENTS[c])
    ensures ComponentFrom(s, k) == Some(REQUIRED_COMPONENTS[c])
    decreases c - k
  {
    hide Names;
    if k < c {
      OneComponent(s, c, k);
      ComponentIs(s, k + 1, c);
    }
  }

  lemma {:induction false} SameNameSameComponent(a: Section, b: Section, k: nat)
    requires k <= 5 && a.name == b.name
    ensures ComponentFrom(a, k) == ComponentFrom(b, k)
    decreases 5 - k
  {
    hide SameIgnoringCase;
    if k < 5 {
      SameNameSameComponent(a, b, k + 1);
    }
  }

  lemma PatchKeepsSection(sections: seq<Section>, k: nat, i: nat)
    requires WellFormed(sections) && k < 5 && i < |sections|
    ensures KeptLines(PatchSection(sections[i], REQUIRED_COMPONENTS[k])) == KeptLines(sections[i])
  {
    hide SectionOk, Settled, Others, UpsertAll, RequiredSettings, SameIgnoringCase, ComponentFrom;
    var component, s := REQUIRED_COMPONENTS[k], sections[i];
    if Names(s, component) {
      PatchedSection(s, component);
      SectionNotEmpty(s);
      SectionNotEmpty(PatchSection(s, component));
      ComponentIs(s, 0, k);
      SameNameSameComponent(s, PatchSection(s, component), 0);
    }
  }

  lemma SectionNotEmpty(s: Section)
    requires SectionOk(s)
    ensures s.lines != []
  {
  }

  lemma {:induction false} AllKeptConcat(a: seq<Section>, b: seq<Section>)
    ensures AllKept(a + b) == AllKept(a) + AllKept(b)
  {
    hide KeptLines;
    if a == [] {
      assert a + b == b;
    } else {
      assert (a + b)[0] == a[0] && (a + b)[1..] == a[1..] + b;
      AllKeptConcat(a[1..], b);
    }
  }

  lemma {:induction false} SameKept(a: seq<Section>, b: seq<Section>)
    requires |a| == |b| && forall i | 0 <= i < |a| :: KeptLines(a[i]) == KeptLines(b[i])
    ensures AllKept(a) == AllKept(b)
  {
    hide KeptLines;
    if a != [] {
      SameKept(a[1..], b[1..]);
    }
  }

  lemma NewSectionKeeps(k: nat)
    requires k < 5
    ensures KeptLines(NewSection(REQUIRED_COMPONENTS[k])) == ["[" + REQUIRED_COMPONENTS[k] + "]"]
  {
    hide Others, RequiredSettings, SameIgnoringCase, Plain;
    var component := REQUIRED_COMPONENTS[k];
    var header := "[" + component + "]";
    var settings := RequiredSettings(component);
    ComponentsArePlain();
    RequiredArePlain(component);
    NewSectionOk(component);
    ComponentIs(NewSection(component), 0, k);
    UpsertSomeKeepOthers([header], settings, 0);
    assert settings[0..] == settings && [header][1..] == [];
    NoOthers(settings);
  }

  lemma NoOthers(settings: seq<Setting>)
    ensures Others([], settings) == []
  {
  }

  lemma PatchComponentKeeps(sections: seq<Section>, k: nat)
    requires WellFormed(sections) && k < 5
    ensures AllKept(PatchComponent(sections, REQUIRED_COMPONENTS[k]))
         == AllKept(sections)
            + (if Mentions(sections, REQUIRED_COMPONENTS[k]) then [] else ["[" + REQUIRED_COMPONENTS[k] + "]"])
  {
    hide KeptLines, WellFormed, Mentions, PatchSection, NewSection;
    var component := REQUIRED_COMPONENTS[k];
    var each := PatchEach(sections, component);
    forall i | 0 <= i < |sections| ensures KeptLines(each[i]) == KeptLines(sections[i]) {
      PatchKeepsSection(sections, k, i);
    }
    SameKept(each, sections);
    NewSectionKeeps(k);
    AllKeptConcat(each, [NewSection(component)]);
    assert [NewSection(component)][1..] == [];
    assert each + [] == each;
  }

  /** Patching one component makes no other component appear. */
  lemma PatchMentionsNoOther(sections: seq<Section>, k: nat, c: nat)
    requires WellFormed(sections) && k < 5 && c < 5 && c != k
    ensures Mentions(PatchComponent(sections, REQUIRED_COMPONENTS[k]), REQUIRED_COMPONENTS[c])
       <==> Mentions(sections, REQUIRED_COMPONENTS[c])
  {
    hide SectionOk, UpsertAll, RequiredSettings, SameIgnoringCase, NewSection;
    var component := REQUIRED_COMPONENTS[k];
    var after := PatchComponent(sections, component);
    PatchComponentMentions(sections, k);
    ComponentsArePlain();
    NewSectionOk(component);
    if Mentions(after, REQUIRED_COMPONENTS[c]) {
      var i :| 0 <= i < |after| && Names(after[i], REQUIRED_COMPONENTS[c]);
      if i == |sections| {
        OneComponent(after[i], k, c);
      } else {
        assert Names(sections[i], REQUIRED_COMPONENTS[c]);
      }
    }
  }

  lemma {:induction false} SameMissing(a: seq<Section>, b: seq<Section>, k: nat)
    requires k <= 5
    requires forall c | k <= c < 5 :: Mentions(a, REQUIRED_COMPONENTS[c]) <==> Mentions(b, REQUIRED_COMPONENTS[c])
    ensures MissingHeaders(a, k) == MissingHeaders(b, k)
    decreases 5 - k
  {
    hide Mentions;
    if k < 5 {
      SameMissing(a, b, k + 1);
    }
  }

  lemma {:induction false} PatchFromKeeps(sections: seq<Section>, k: nat)
    requires WellFormed(sections) && k <= 5 && Patched(sections, k)
    ensures AllKept(PatchFrom(sections, k)) == AllKept(sections) + MissingHeaders(sections, k)
    decreases 5 - k
  {
    hide WellFormed, Patched, PatchComponent, AllKept, Mentions;
    if k < 5 {
      var next := PatchComponent(sections, REQUIRED_COMPONENTS[k]);
      PatchComponentStep(sections, k);
      PatchComponentKeeps(sections, k);
      PatchFromKeeps(next, k + 1);
      forall c | k + 1 <= c < 5
        ensures Mentions(next, REQUIRED_COMPONENTS[c]) <==> Mentions(sections, REQUIRED_COMPONENTS[c])
      {
        PatchMentionsNoOther(sections, k, c);
      }
      SameMissing(next, sections, k + 1);
    }
  }

  /** Every line that sets no required key stays, in order; only the headers of missing components are new. */
  lemma PatchKeepsOtherLines(lines: seq<string>)
    ensures AllKept(Split(PatchLines(lines))) == AllKept(Split(lines)) + MissingHeaders(Split(lines), 0)
  {
    hide WellFormed, Patched, PatchFrom, Split, Flatten, AllKept, MissingHeaders;
    SplitOk(lines);
    PatchOk(lines);
    SplitOfFlatten(Patch(Split(lines)));
    NothingPatched(Split(lines));
    PatchFromKeeps(Split(lines), 0);
  }

  lemma NothingPatched(sections: seq<Section>)
    ensures Patched(sections, 0)
  {
  }
}
