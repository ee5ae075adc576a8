/** Attach and poll come to the same as consuming every complete record of all five files: nothing that is not read, or
    filtered out, could have said anything. */
module AllRecords {
  import opened Prelude
  import opened Text
  import opened ArenaState
  import opened ReducerSpec
  import opened LogRecords
  import opened LineGrammar
  import opened LogParser
  import opened LogReader
  import opened KWayMerge
  import opened ObserverSpec
  import Tailing

  /** Every complete record behind the cursors, file by file. */
  function RecordStreams(files: Files, cursors: Cursors): (r: Streams)
    requires CursorsFit(files, cursors)
    ensures |r| == 5
  {
    seq(5, i requires 0 <= i < 5 =>
      var c := COMPONENTS[i];
      if c in files then PendingLines(c, files[c].bytes, CursorAt(cursors, c)) else [])
  }

  /** The words that the parser looks for in a LoadingScreen record. */
  predicate NamesScreen(text: string) {
    Contains(text, "ARENA") || Contains(text, "HUB -> GAMEPLAY") || Contains(text, "GAMEPLAY -> HUB")
  }

  /** The words that the parser looks for in a Power record. */
  predicate NamesGame(text: string) {
    Contains(text, "CREATE_GAME") || (Contains(text, "PLAYSTATE") && Contains(text, "WON"))
  }

  /** A LoadingScreen or Power record that names these words in any case names them in upper case as well. */
  predicate Cased(line: RawLogLine) {
    match line.component
    case LoadingScreen => NamesScreen(Upper(line.message)) ==> NamesScreen(line.raw)
    case Power => NamesGame(Upper(line.message)) ==> NamesGame(line.raw)
    case _ => true
  }

  predicate AllCased(streams: Streams) {
    forall i | 0 <= i < |streams| :: forall line | line in streams[i] :: Cased(line)
  }

  /** The same parser flags, the same reducer and the same consumed sources. */
  predicate SameOutcome(a: Replayed, b: Replayed) {
    a.parser == b.parser && a.reducer == b.reducer
  }

  // Records that say nothing.

  /** The components that are not read never say anything. */
  lemma InertIsSilent(p: ParserState, line: RawLogLine)
    requires !line.component.CanEmitEvents()
    ensures Parse(p, line) == (p, [])
  {
  }

  predicate IsKept(line: RawLogLine) {
    line.component.CanEmitEvents() && MightEmitEvent(line.component, line.raw)
  }

  /** A line as a reader makes it from a record. */
  predicate FromRecord(line: RawLogLine) {
    line == Materialize(line.component, line.lineNumber, line.byteOffset, line.raw)
  }

  lemma UnkeptIsSilent(p: ParserState, line: RawLogLine)
    requires FromRecord(line) && Cased(line) && !IsKept(line)
    ensures Parse(p, line) == (p, [])
  {
    hide Contains, SplitTimestamp, Parse;
    if !line.component.CanEmitEvents() {
      InertIsSilent(p, line);
    } else if line.component.LoadingScreen? || line.component.Power? {
      PrefilterGap(p, line.component, line.lineNumber, line.byteOffset, line.raw);
    } else {
      PrefilterSound(p, line.component, line.lineNumber, line.byteOffset, line.raw);
    }
  }

  function Kept(lines: seq<RawLogLine>): seq<RawLogLine> {
    if lines == [] then [] else (if IsKept(lines[0]) then [lines[0]] else []) + Kept(lines[1..])
  }

  lemma ConsumeSilent(session: Session, r: Replayed, line: RawLogLine)
    requires Parse(r.parser, line) == (r.parser, [])
    ensures SameOutcome(Consume(session, r, line), r)
  {
    hide Parse;
  }

  lemma ConsumeSame(session: Session, a: Replayed, b: Replayed, line: RawLogLine)
    requires SameOutcome(a, b)
    ensures SameOutcome(Consume(session, a, line), Consume(session, b, line))
  {
    hide Parse, ApplySourcedLine;
  }

  lemma {:induction false} KeptFold(session: Session, a: Replayed, b: Replayed, lines: seq<RawLogLine>)
    requires SameOutcome(a, b) && forall line | line in lines :: FromRecord(line) && Cased(line)
    ensures SameOutcome(ConsumeAll(session, a, lines), ConsumeAll(session, b, Kept(lines)))
    decreases lines
  {
    hide Consume, FromRecord, Cased, IsKept, SameOutcome;
    if lines != [] {
      var line, rest := lines[0], lines[1..];
      assert line in lines;
      if IsKept(line) {
        ConsumeSame(session, a, b, line);
        KeptFold(session, Consume(session, a, line), Consume(session, b, line), rest);
        assert Kept(lines) == [line] + Kept(rest) && ([line] + Kept(rest))[1..] == Kept(rest);
      } else {
        UnkeptIsSilent(a.parser, line);
        ConsumeSilent(session, a, line);
        OutcomeChains(Consume(session, a, line), a, b);
        KeptFold(session, Consume(session, a, line), b, rest);
        assert Kept(lines) == [] + Kept(rest) == Kept(rest);
      }
    }
  }

  lemma OutcomeChains(a: Replayed, b: Replayed, c: Replayed)
    requires SameOutcome(a, b) && SameOutcome(b, c)
    ensures SameOutcome(a, c)
  {
  }

  // What is read is what is kept.

  lemma {:induction false} CandidatesAreKept(c: Component, records: seq<Record>, before: nat)
    ensures Kept(NumberedLines(c, records, before)) == if c.CanEmitEvents() then Candidates(c, records, before) else []
    ensures forall line | line in NumberedLines(c, records, before) :: line.component == c && FromRecord(line)
    decreases records
  {
    hide MightEmitEvent, SplitTimestamp, TrimLineEnd;
    if records != [] {
      CandidatesAreKept(c, records[1..], before + 1);
      var first, rest := LineOf(c, records[0], before + 1), NumberedLines(c, records[1..], before + 1);
      assert NumberedLines(c, records, before) == [first] + rest && ([first] + rest)[1..] == rest;
    }
  }

  function KeptStreams(streams: Streams): (r: Streams)
    ensures |r| == |streams|
  {
    seq(|streams|, i requires 0 <= i < |streams| => Kept(streams[i]))
  }

  lemma RecordsOfFiles(files: Files, cursors: Cursors)
    requires CursorsFit(files, cursors)
    ensures var streams := RecordStreams(files, cursors);
      && Tagged(streams) && KeptStreams(streams) == PendingStreams(files, cursors)
      && forall i | 0 <= i < 5 :: forall line | line in streams[i] :: FromRecord(line)
  {
    hide Records, NumberedLines, Candidates, FromRecord;
    ComponentRanks();
    var streams := RecordStreams(files, cursors);
    forall i | 0 <= i < 5
      ensures Kept(streams[i]) == PendingStreams(files, cursors)[i]
      ensures forall line: RawLogLine | line in streams[i] :: line.component.Rank() == i && FromRecord(line)
    {
      var c := COMPONENTS[i];
      if c in files {
        var cursor := CursorAt(cursors, c);
        CandidatesAreKept(c, Records(files[c].bytes, cursor.byteOffset), cursor.lineNumber);
      }
    }
  }

  // Putting the other records back in between.

  lemma {:induction false} KeptProject(lines: seq<RawLogLine>, c: nat)
    ensures Project(Kept(lines), c) == Kept(Project(lines, c))
  {
    hide IsKept;
    if lines != [] {
      var line, rest := lines[0], lines[1..];
      KeptProject(rest, c);
      ProjectCons(line, Kept(rest), c);
      KeptCons(line, Project(rest, c));
      if line.component.Rank() != c {
        assert Project(lines, c) == [] + Project(rest, c) == Project(rest, c);
      }
      if !IsKept(line) {
        assert Kept(lines) == [] + Kept(rest) == Kept(rest);
      }
    }
  }

  lemma ProjectCons(line: RawLogLine, rest: seq<RawLogLine>, c: nat)
    ensures Project([line] + rest, c) == (if line.component.Rank() == c then [line] else []) + Project(rest, c)
  {
    assert ([line] + rest)[1..] == rest;
  }

  lemma KeptCons(line: RawLogLine, rest: seq<RawLogLine>)
    ensures Kept([line] + rest) == (if IsKept(line) then [line] else []) + Kept(rest)
  {
    assert ([line] + rest)[1..] == rest;
  }

  lemma {:induction false} KeptMembers(lines: seq<RawLogLine>, line: RawLogLine)
    ensures line in Kept(lines) <==> line in lines && IsKept(line)
  {
    hide IsKept;
    if lines != [] {
      KeptMembers(lines[1..], line);
    }
  }

  lemma ConsInterleaves(streams: Streams, c: nat, all: seq<RawLogLine>)
    requires c < |streams| && streams[c] != [] && streams[c][0].component.Rank() == c
    requires Interleaves(all, Pop(streams, c))
    ensures Interleaves([streams[c][0]] + all, streams)
  {
    var line := streams[c][0];
    forall d | 0 <= d < |streams| ensures Project([line] + all, d) == streams[d] {
      ProjectCons(line, all, d);
      assert Project(all, d) == Pop(streams, c)[d];
    }
  }

  lemma PopKept(streams: Streams, c: nat)
    requires c < |streams| && streams[c] != []
    ensures if IsKept(streams[c][0])
            then KeptStreams(streams)[c] != [] && KeptStreams(streams)[c][0] == streams[c][0]
                 && KeptStreams(Pop(streams, c)) == Pop(KeptStreams(streams), c)
            else KeptStreams(Pop(streams, c)) == KeptStreams(streams)
  {
    hide IsKept;
    assert streams[c] == [streams[c][0]] + streams[c][1..];
    KeptCons(streams[c][0], streams[c][1..]);
    forall d | 0 <= d < |streams| && d != c
      ensures KeptStreams(Pop(streams, c))[d] == KeptStreams(streams)[d]
    {
    }
    assert IsKept(streams[c][0]) || KeptStreams(streams)[c] == [] + Kept(streams[c][1..]) == Kept(streams[c][1..]);
  }

  lemma InterleavedFront(lines: seq<RawLogLine>, streams: Streams)
    requires Interleaves(lines, streams) && lines != []
    ensures var c := lines[0].component.Rank();
      && c < |streams| && streams[c] != [] && streams[c][0] == lines[0]
      && Interleaves(lines[1..], Pop(streams, c))
  {
    var line, rest := lines[0], lines[1..];
    var c := line.component.Rank();
    assert lines == [line] + rest && line in lines;
    assert streams[c] == Project(lines, c);
    forall d | 0 <= d < |streams| ensures Project(rest, d) == Pop(streams, c)[d] {
      ProjectCons(line, rest, d);
      assert streams[d] == Project(lines, d);
    }
  }

  /** An interleaving of the kept lines is what is kept of an interleaving of all lines. */
  lemma {:induction false} Weave(streams: Streams, kept: seq<RawLogLine>) returns (all: seq<RawLogLine>)
    requires Tagged(streams) && Interleaves(kept, KeptStreams(streams))
    ensures Interleaves(all, streams) && Kept(all) == kept
    decreases Size(streams)
  {
    hide Interleaves, IsKept, KeptStreams, Size, Tagged, Kept, Pop;
    if c: nat :| c < |streams| && streams[c] != [] && !IsKept(streams[c][0]) {
      HeadComponent(streams, c);
      PopKept(streams, c);
      PopSize(streams, c);
      PopTagged(streams, c);
      var rest := Weave(Pop(streams, c), kept);
      ConsInterleaves(streams, c, rest);
      KeptCons(streams[c][0], rest);
      all := [streams[c][0]] + rest;
    } else if kept != [] {
      InterleavedFront(kept, KeptStreams(streams));
      var c := kept[0].component.Rank();
      KeptHead(streams, c);
      HeadComponent(streams, c);
      PopKept(streams, c);
      PopSize(streams, c);
      PopTagged(streams, c);
      var rest := Weave(Pop(streams, c), kept[1..]);
      ConsInterleaves(streams, c, rest);
      KeptCons(streams[c][0], rest);
      all := [streams[c][0]] + rest;
    } else {
      NothingKept(streams);
      all := [];
    }
  }

  lemma KeptHead(streams: Streams, c: nat)
    requires c < |streams| && KeptStreams(streams)[c] != []
    ensures streams[c] != []
  {
  }

  lemma NothingKept(streams: Streams)
    requires Interleaves([], KeptStreams(streams))
    requires forall c: nat | c < |streams| && streams[c] != [] :: IsKept(streams[c][0])
    ensures Interleaves([], streams) && Kept([]) == []
  {
    hide IsKept;
    forall c | 0 <= c < |streams| ensures streams[c] == [] {
      assert KeptStreams(streams)[c] == Project([], c) == [];
    }
  }

  // In key order there is only one way.

  lemma {:induction false} KeptSorted(lines: seq<RawLogLine>)
    requires Sorted(lines)
    ensures Sorted(Kept(lines))
  {
    hide Sorted, Precedes, IsKept;
    if lines == [] {
      SortedEmpty();
    } else {
      var first, rest := lines[0], lines[1..];
      assert lines == [first] + rest;
      SortedCons(first, rest);
      KeptSorted(rest);
      forall line | line in Kept(rest) ensures !Precedes(line, first) {
        KeptMembers(rest, line);
      }
      SortedCons(first, Kept(rest));
      assert [] + Kept(rest) == Kept(rest);
    }
  }

  lemma KeptOfMerge(streams: Streams)
    requires Tagged(streams) && Tagged(KeptStreams(streams)) && AllSorted(streams)
    ensures Kept(Merge(streams)) == Merge(KeptStreams(streams))
  {
    hide Merge, Sorted, IsKept, Kept;
    MergeInterleaves(streams);
    MergeSortedIff(streams);
    KeptSorted(Merge(streams));
    var kept := Kept(Merge(streams));
    forall c | 0 <= c < |streams| ensures Project(kept, c) == KeptStreams(streams)[c] {
      KeptProject(Merge(streams), c);
    }
    forall line | line in kept ensures line.component.Rank() < |streams| {
      KeptMembers(Merge(streams), line);
    }
    MergeIsTheSort(KeptStreams(streams), kept);
  }

  // Reading.

  /** Some interleaving of all complete records, which in key order is their merge. */
  lemma AllInOrder(files: Files, cursors: Cursors) returns (all: seq<RawLogLine>)
    requires CursorsFit(files, cursors)
    ensures var streams := RecordStreams(files, cursors);
      && Tagged(streams) && Interleaves(all, streams) && Kept(all) == PendingMerged(files, cursors)
      && (AllSorted(streams) ==> all == Merge(streams))
  {
    hide Merge, RecordStreams, PendingStreams, KeptStreams, Tagged, Interleaves, Kept, AllSorted;
    var streams := RecordStreams(files, cursors);
    RecordsOfFiles(files, cursors);
    PendingTagged(files, cursors);
    if AllSorted(streams) {
      all := Merge(streams);
      MergeInterleaves(streams);
      KeptOfMerge(streams);
    } else {
      MergeInterleaves(KeptStreams(streams));
      all := Weave(streams, PendingMerged(files, cursors));
    }
  }

  lemma AllFromRecords(files: Files, cursors: Cursors, all: seq<RawLogLine>, line: RawLogLine)
    requires CursorsFit(files, cursors) && Interleaves(all, RecordStreams(files, cursors)) && line in all
    ensures AllCased(RecordStreams(files, cursors)) ==> Cased(line)
    ensures FromRecord(line)
  {
    hide RecordStreams, Cased, FromRecord;
    RecordsOfFiles(files, cursors);
    var c := line.component.Rank();
    ProjectMembers(all, c, line);
    assert line in RecordStreams(files, cursors)[c];
  }

  /** A reading comes to the same as all complete records of the five files behind the cursors, interleaved so that
      each file keeps its order, and in key order where each file is: if none of them loses its words to lower case. */
  lemma ReadingIsAllRecords(session: Session, r: Replayed, files: Files, cursors: Cursors)
    requires CursorsFit(files, cursors) && AllCased(RecordStreams(files, cursors))
    ensures var streams := RecordStreams(files, cursors);
      && Tagged(streams)
      && (exists all :: Interleaves(all, streams)
            && SameOutcome(Drained(session, r, files, cursors), ConsumeAll(session, r, all)))
      && (AllSorted(streams) ==>
            SameOutcome(Drained(session, r, files, cursors), ConsumeAll(session, r, Merge(streams))))
  {
    hide RecordStreams, PendingMerged, ConsumeAll, Interleaves, AllSorted, Kept, Merge, AllCased, Cased, FromRecord;
    var all := AllInOrder(files, cursors);
    forall line | line in all ensures FromRecord(line) && Cased(line) {
      AllFromRecords(files, cursors, all, line);
    }
    KeptFold(session, r, r, all);
    assert SameOutcome(Drained(session, r, files, cursors), ConsumeAll(session, r, all));
  }

  /** The complete-history attach knows what every complete record of all five files says. */
  lemma AttachReadsEverything(session: Session, slots: Option<U16>, files: Files)
    requires files != map[] && CursorsFit(files, map[]) && AllCased(RecordStreams(files, map[]))
    ensures var streams, attached := RecordStreams(files, map[]), AttachFull(session, slots, files);
      && Tagged(streams) && attached.Ok?
      && (exists all :: Interleaves(all, streams)
            && SameOutcome(attached.value.replay, ConsumeAll(session, FreshReplay(slots), all)))
      && (AllSorted(streams) ==>
            SameOutcome(attached.value.replay, ConsumeAll(session, FreshReplay(slots), Merge(streams))))
  {
    hide RecordStreams, Drained, ConsumeAll, FreshReplay, AllCased, Merge, Interleaves, AllSorted, Witnesses, AdvancedCursors;
    ReadingIsAllRecords(session, FreshReplay(slots), files, map[]);
  }

  /** A successful poll adds what every complete record behind the cursors says. */
  lemma PollReadsEverything(session: Session, o: Observed, files: Files)
    requires Poll(session, o, files).Ok?
    ensures CursorsFit(files, o.cursors)
    ensures var streams, polled := RecordStreams(files, o.cursors), Poll(session, o, files).value;
      AllCased(streams) ==>
        && Tagged(streams)
        && (exists all :: Interleaves(all, streams) && SameOutcome(polled.replay, ConsumeAll(session, o.replay, all)))
        && (AllSorted(streams) ==> SameOutcome(polled.replay, ConsumeAll(session, o.replay, Merge(streams))))
  {
    hide RecordStreams, Drained, ConsumeAll, AllCased, Merge, Interleaves, AllSorted, Witnesses, AdvancedCursors,
      FirstFault, InOrder, PendingMerged;
    NoFaultFits(o, files);
    if AllCased(RecordStreams(files, o.cursors)) {
      ReadingIsAllRecords(session, o.replay, files, o.cursors);
    }
  }

  // A record that is lost to lower case.

  const LOWER: string := "create_game"

  function LowerLog(): Files { map[Component.Power := FileView(0, LOWER + [LF])] }

  function LowerLine(): RawLogLine { Materialize(Component.Power, 1, 0, LOWER) }

  lemma LowerStream()
    ensures PendingLines(Component.Power, LOWER + [LF], START_CURSOR) == [LowerLine()]
  {
    hide PendingLines, PendingEvents, Materialize, TrimLineEnd, MightEmitEvent, EndCursor;
    var bytes := LOWER + [LF];
    assert bytes[0..11] == LOWER && bytes[11] == LF && bytes[0..12] == bytes;
    NewlineFromUnique(bytes, 0, 11);
    NextRecord(Component.Power, bytes, START_CURSOR, 11);
    LowerTrims();
    NothingFrom(bytes);
    NoNextRecord(Component.Power, bytes, LogCursor(12, 1));
  }

  lemma LowerTrims()
    ensures TrimLineEnd(LOWER + [LF]) == LOWER
  {
    assert (LOWER + [LF])[..11] == LOWER;
  }

  lemma NothingFrom(bytes: string)
    ensures NewlineFrom(bytes, |bytes|) == None
  {
  }

  /** Power's only record is in lower case: the attach knows of no game, the record would have started one. */
  lemma LowerCaseIsLost(session: Session, slots: Option<U16>)
    ensures CursorsFit(LowerLog(), map[]) && Tagged(RecordStreams(LowerLog(), map[]))
    ensures !AllCased(RecordStreams(LowerLog(), map[]))
    ensures AttachFull(session, slots, LowerLog()).Ok?
    ensures !AttachFull(session, slots, LowerLog()).value.replay.reducer.state.snapshot.game.active
    ensures ConsumeAll(session, FreshReplay(slots), Merge(RecordStreams(LowerLog(), map[]))).reducer.state.snapshot.game.active
  {
    hide Merge, PendingLines, PendingEvents, Materialize, Consume, Witnesses, AdvancedCursors, LowerLine, Cased;
    var streams := RecordStreams(LowerLog(), map[]);
    ComponentRanks();
    RecordsOfFiles(LowerLog(), map[]);
    LowerStream();
    LowerIsUncased();
    assert streams == Tailing.OneStream(Component.Power, [LowerLine()]);
    Tailing.OneStreamMerge(Component.Power, [LowerLine()]);
    assert LowerLine() in streams[1];
    KeptCons(LowerLine(), []);
    assert [LowerLine()][1..] == [];
    assert KeptStreams(streams) == Tailing.OneStream(Component.Power, []);
    Tailing.OneStreamMerge(Component.Power, []);
    LowerStarts(session, slots);
  }

  lemma LowerIsUncased()
    ensures LowerLine().component.Power? && !Cased(LowerLine()) && !IsKept(LowerLine())
  {
    hide Contains, SplitTimestamp;
    PrefilterDropsLowerCase(FRESH_PARSER);
    PrefilterGap(FRESH_PARSER, Component.Power, 1, 0, LOWER);
  }

  lemma LowerStarts(session: Session, slots: Option<U16>)
    ensures Consume(session, FreshReplay(slots), LowerLine()).reducer.state.snapshot.game.active
    ensures !FreshReplay(slots).reducer.state.snapshot.game.active
  {
    hide Parse, Materialize, DeckCards, DeckStateOf, PositiveCounts;
    PrefilterDropsLowerCase(FRESH_PARSER);
    var s, source := NewReducer(slots), SourceOf(session, LowerLine());
    var noted := s.(observations := RecordEvents(s.observations, source, [GameStarted]));
    assert ApplyAll(noted, [GameStarted]) == ApplyAll(Apply(noted, GameStarted), []);
  }
}
