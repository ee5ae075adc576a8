/** The preview's notice about the end of the current file: when it is wrong about a proposed `log.config`. */
module EndingNotice {
  import opened Text
  import opened ConfigSections
  import opened ConfigText
  import opened ConfigEndings
  import opened LineDiff

  /** The preview of this proposal says that the current file lacks its final newline. */
  predicate Noticed(original: string) {
    original != WithRequiredSections(original)
    && LogicalLines(original) == LogicalLines(WithRequiredSections(original))
  }

  lemma ClosedHasNewline(source: string)
    requires source != [] && !EndsOpen(source)
    ensures LineLength(source) < |source|
  {
    assert source[|source| - 1] in source && source[..|source|] == source;
  }

  /** In a text that ends in a newline the preview and the patcher see the same lines. */
  lemma {:induction false} LinesAreLogical(source: string)
    requires !EndsOpen(source)
    ensures Lines(source) == LogicalLines(source)
    decreases source
  {
    if source != [] {
      ClosedHasNewline(source);
      LinesAreLogical(source[LineLength(source) + 1..]);
    }
  }

  /** A text is its first line, that line's ending and the rest. */
  lemma FirstOfLines(source: string) returns (line: string, rest: string)
    requires source != [] && !EndsOpen(source)
    ensures LF !in line && source == line + [LF] + rest && |rest| < |source| && !EndsOpen(rest)
    ensures Lines(source) == [StripCr(line)] + Lines(rest)
  {
    hide LfFree;
    ClosedHasNewline(source);
    var end := LineLength(source);
    line, rest := source[..end], source[end + 1..];
    assert source == line + [LF] + rest;
  }

  lemma TerminateCons(line: string, rest: seq<string>, ending: string)
    ensures Terminate([line] + rest, ending) == line + ending + Terminate(rest, ending)
  {
    assert ([line] + rest)[1..] == rest;
  }

  lemma StripAndEnd(line: string)
    ensures !CrEnded(line) ==> StripCr(line) == line
    ensures CrEnded(line) ==> StripCr(line) + CRLF == line + [LF]
  {
  }

  /** Joining the lines with the only ending a text uses gives the text back. */
  lemma {:induction false} JoinedAgain(source: string, ending: string)
    requires !EndsOpen(source)
    requires (ending == [LF] && !HasCrLf(source)) || (ending == CRLF && !HasBareLf(source))
    ensures Terminate(Lines(source), ending) == source
    decreases |source|
  {
    hide HasCrLf, HasBareLf, Lines, Terminate, EndsOpen, StripCr, CrEnded;
    if source == [] {
      NothingJoined(ending);
    } else {
      var line, rest := FirstOfLines(source);
      FirstEnding(line, [LF], rest);
      JoinedAgain(rest, ending);
      TerminateCons(StripCr(line), Lines(rest), ending);
      StripAndEnd(line);
    }
  }

  lemma NothingJoined(ending: string)
    ensures Terminate(Lines([]), ending) == []
  {
  }

  lemma {:induction false} TerminateCloses(lines: seq<string>, ending: string)
    requires ending == CRLF || ending == [LF]
    ensures !EndsOpen(Terminate(lines, ending))
  {
    if |lines| == 1 {
      assert Terminate(lines[1..], ending) == [];
    } else if lines != [] {
      TerminateCloses(lines[1..], ending);
      assert Terminate(lines[1..], ending) != [];
    }
  }

  lemma LogicalOfTerminated(lines: seq<string>, ending: string)
    requires LfFree(lines) && (ending == CRLF || (ending == [LF] && !SomeCrEnded(lines)))
    ensures LogicalLines(Terminate(lines, ending)) == lines
  {
    hide LogicalLines, Lines, EndsOpen;
    TerminateCloses(lines, ending);
    LinesAreLogical(Terminate(lines, ending));
    LinesOfTerminated(lines, ending);
  }

  lemma ClosedHasNoCr(source: string)
    requires !EndsOpen(source)
    ensures !CrEnded(source)
  {
  }

  /** The proposal keeps the lines of a closed file only where the patch does. */
  lemma ProposedLines(original: string)
    requires !EndsOpen(original)
    ensures LogicalLines(WithRequiredSections(original)) == PatchLines(Lines(original))
  {
    hide LogicalLines, Lines, PatchLines, HasCrLf, Contains, CrEnded, SomeCrEnded, EndsOpen, Tame, LfFree, Terminate;
    SplitLines(original);
    PatchedLinesTame(Lines(original));
    TameKeepsLfFree(Lines(original), PatchLines(Lines(original)));
    ContainsCrLf(original);
    if !HasCrLf(original) {
      ClosedHasNoCr(original);
      LastEnding(original);
      SomeIsCounted(Lines(original));
      TameKeepsNone(Lines(original), PatchLines(Lines(original)));
    }
    LogicalOfTerminated(PatchLines(Lines(original)), LineEnding(original));
  }

  lemma TameKeepsLfFree(before: seq<string>, after: seq<string>)
    requires Tame(before, after) && LfFree(before)
    ensures LfFree(after)
  {
  }

  /** About a file that ends in a newline the notice appears, and is wrong, if and only if every required component has
      a section, all its sections hold its settings, and the file mixes both line endings. */
  lemma WrongNoticeIff(original: string)
    requires !EndsOpen(original)
    ensures Noticed(original) <==>
      Patched(Split(Lines(original)), 5) && HasCrLf(original) && HasBareLf(original)
  {
    hide LogicalLines, Lines, PatchLines, HasCrLf, HasBareLf, Contains, EndsOpen, Terminate, LfFree, Split, Patched;
    ProposedLines(original);
    PatchStaysIff(Lines(original));
    LinesAreLogical(original);
    ContainsCrLf(original);
    if Patched(Split(Lines(original)), 5) {
      if !HasCrLf(original) {
        JoinedAgain(original, [LF]);
      } else if !HasBareLf(original) {
        JoinedAgain(original, CRLF);
      } else {
        SplitLines(original);
        JoinedWithCrLf(Lines(original));
      }
    }
  }

  /** A settled file whose first line alone ends in CRLF. */
  function Mixed(lines: seq<string>): string
    requires lines != []
  {
    lines[0] + CRLF + Terminate(lines[1..], [LF])
  }

  /** Such a file gets the wrong notice, whatever lines it was patched from. */
  lemma NoticeCanBeWrong(lines: seq<string>)
    requires LfFree(lines) && !SomeCrEnded(lines)
    ensures var patched := PatchLines(lines);
      patched != [] && !EndsOpen(Mixed(patched)) && Noticed(Mixed(patched))
  {
    hide LogicalLines, Lines, PatchLines, HasCrLf, HasBareLf, EndsOpen, Noticed, Tame, CrEnded, Split, Patched;
    var patched := PatchLines(lines);
    PatchedLinesTame(lines);
    TameKeepsLfFree(lines, patched);
    TameKeepsNone(lines, patched);
    PatchLinesIdempotent(lines);
    PatchStaysIff(patched);
    var rest := patched[1..];
    assert patched == [patched[0]] + rest;
    assert forall k | 0 <= k < |rest| :: rest[k] == patched[k + 1];
    FirstLineBack(patched[0], CRLF, Terminate(rest, [LF]));
    LinesOfTerminated(rest, [LF]);
    FirstEnding(patched[0], CRLF, Terminate(rest, [LF]));
    SomeIsCounted(rest);
    JoinedWithLf(rest);
    MixedCloses(patched);
    WrongNoticeIff(Mixed(patched));
  }

  lemma MixedCloses(lines: seq<string>)
    requires |lines| >= 2
    ensures !EndsOpen(Mixed(lines))
  {
    TerminateCloses(lines[1..], [LF]);
    assert Terminate(lines[1..], [LF]) != [];
  }
}
