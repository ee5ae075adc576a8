/** The live attach: it reads an Arena log backwards for its newest deck snapshot or run start and replays only
    what follows. */
module TailAttach {
  import opened Prelude
  import opened Text
  import opened ArenaState
  import opened ReducerSpec
  import opened Reducer
  import opened LogRecords
  import ReverseSearch
  import opened LineGrammar
  import opened LogParser
  import opened LogReader
  import opened ObserverSpec
  import opened Observer
  import opened TailRun

  const TAIL_SNAPSHOT_SUFFIX_BYTES: nat := 256 * 1024
  const TAIL_SNAPSHOT_PARSE_BYTES: nat := 512 * 1024
  const REVERSE_SEARCH_CHUNK_BYTES: nat := 64 * 1024

  datatype AttachMethod = TailSnapshot | TailRun | AwaitingSnapshot

  // The snapshot at a sentinel.

  datatype Header = Header(id: string, hero: Option<CardId>)

  /** What has been read of a snapshot. */
  datatype Scan = Scan(
    parser: ParserState, reducer: Tracked, header: Option<Header>, cardIds: seq<CardId>, mode: Option<string>)

  datatype SnapshotParse =
    | Complete(
        draftDeckId: string, heroCardId: Option<CardId>, cardIds: seq<CardId>, draftMode: Option<string>,
        completion: LogCursor, bytesParsed: nat, parser: ParserState)
    | Incomplete(bytesParsed: nat, parser: ParserState, reducer: Tracked)

  /** How far a reader that began at `start` has come. */
  function Parsed(start: nat, cursor: LogCursor): nat {
    Max(cursor.byteOffset - start, 0)
  }

  function HeaderOf(events: seq<GameEvent>): Option<Header> {
    if events == [] then None
    else if events[0].ArenaDeckSnapshotStarted? then Some(Header(events[0].draftDeckId, events[0].heroCardId))
    else HeaderOf(events[1..])
  }

  function CardsOf(events: seq<GameEvent>): seq<CardId> {
    if events == [] then []
    else (if events[0].ArenaDeckSnapshotCard? then [events[0].cardId] else []) + CardsOf(events[1..])
  }

  function ModeOf(mode: Option<string>, events: seq<GameEvent>): Option<string>
    decreases events
  {
    if events == [] then mode
    else ModeOf(if events[0].ArenaDraftMode? then Some(events[0].mode) else mode, events[1..])
  }

  function Completes(events: seq<GameEvent>): bool {
    exists i | 0 <= i < |events| :: events[i].ArenaDeckSnapshotCompleted?
  }

  ghost function ReadInto(session: Session, scan: Scan, line: RawLogLine, header: Header): Scan {
    var parsed := Parse(scan.parser, line);
    Scan(parsed.0, ApplySourcedLine(scan.reducer, SourceOf(session, line), parsed.1), Some(header),
         scan.cardIds + CardsOf(parsed.1), ModeOf(scan.mode, parsed.1))
  }

  /** Reads forward from a sentinel to the first completion; the first line has to be a snapshot header. */
  ghost function ScanSnapshot(session: Session, bytes: string, start: nat, cursor: LogCursor, scan: Scan):
    (r: SnapshotParse)
    requires cursor.byteOffset <= |bytes|
    ensures r.Complete? ==> r.completion.byteOffset <= |bytes|
    decreases |bytes| - cursor.byteOffset
  {
    match NewlineFrom(bytes, cursor.byteOffset)
    case None => Incomplete(Parsed(start, cursor), scan.parser, scan.reducer)
    case Some(i) =>
      var next := LogCursor(i + 1, cursor.lineNumber + 1);
      if Parsed(start, next) > TAIL_SNAPSHOT_PARSE_BYTES
      then Incomplete(Parsed(start, next), scan.parser, scan.reducer)
      else
        var line := LineAt(Component.Arena, bytes, cursor, i);
        var parsed := Parse(scan.parser, line);
        var header := if scan.header.Some? then scan.header else HeaderOf(parsed.1);
        if header.None? then Incomplete(Parsed(start, next), parsed.0, scan.reducer)
        else
          var read := ReadInto(session, scan, line, header.value);
          if Completes(parsed.1)
          then SnapshotParse.Complete(
            header.value.id, header.value.hero, read.cardIds, read.mode, next, Parsed(start, next), parsed.0)
          else ScanSnapshot(session, bytes, start, next, read)
  }

  ghost function FreshScan(slots: Option<U16>): Scan {
    Scan(FRESH_PARSER, FreshReplay(slots).reducer, None, [], None)
  }

  // The whole attach to an Arena log.

  datatype Tail = Tail(how: AttachMethod, parser: ParserState, reducer: Tracked, cursor: LogCursor)

  function TailEnd(bytes: string): LogCursor {
    LogCursor(LastLineEnd(bytes), 0)
  }

  ghost function Synced(slots: Option<U16>, snapshot: SnapshotParse): Tracked
    requires snapshot.Complete?
  {
    Tracked(
      Apply(NewReducer(slots), ArenaAuthoritativeResync(
        snapshot.draftDeckId, snapshot.heroCardId, snapshot.cardIds, snapshot.draftMode)),
      {})
  }

  /** Hydrates from a complete snapshot and replays a bounded suffix after it. */
  ghost function SnapshotTail(session: Session, slots: Option<U16>, bytes: string, start: nat): Tail
    requires start <= |bytes|
  {
    var snapshot := ScanSnapshot(session, bytes, start, LogCursor(start, 0), FreshScan(slots));
    match snapshot
    case Incomplete(_, parser, reducer) => Tail(AwaitingSnapshot, parser, reducer, TailEnd(bytes))
    case Complete(_, _, _, _, completion, _, parser) =>
      if LastLineEnd(bytes) <= completion.byteOffset + TAIL_SNAPSHOT_SUFFIX_BYTES then
        var r := ConsumeAll(session, Replayed(parser, Synced(slots, snapshot), None, None),
                            PendingLines(Component.Arena, bytes, completion));
        Tail(TailSnapshot, r.parser, r.reducer, EndCursor(bytes, completion))
      else Tail(TailSnapshot, parser, Synced(slots, snapshot), TailEnd(bytes))
  }

  ghost function Waiting(slots: Option<U16>, bytes: string): Tail {
    Tail(AwaitingSnapshot, FRESH_PARSER, FreshReplay(slots).reducer, TailEnd(bytes))
  }

  /** The newest complete snapshot, unless a run-start sentinel follows it. */
  ghost function FromSnapshot(session: Session, slots: Option<U16>, bytes: string): Tail {
    var marker := ReverseSearch.NaiveLastLine(bytes, DRAFT_DECK);
    var runStart := ReverseSearch.NaiveLastLine(bytes, ON_BEGIN);
    if marker.Some? && marker.value.complete && !(runStart.Some? && runStart.value.lineStart > marker.value.lineStart)
    then
      LastLineIsRecord(bytes, DRAFT_DECK);
      SnapshotTail(session, slots, bytes, marker.value.lineStart)
    else Waiting(slots, bytes)
  }

  /** Failing that, a bounded suffix rooted at the newest complete run start, if it names a run. */
  ghost function ArenaTail(session: Session, slots: Option<U16>, bytes: string): Tail {
    var waiting := FromSnapshot(session, slots, bytes);
    var runStart := ReverseSearch.NaiveLastLine(bytes, ON_BEGIN);
    if waiting.how.TailSnapshot? || runStart.None? || !runStart.value.complete then waiting
    else
      LastLineIsRecord(bytes, ON_BEGIN);
      var start := runStart.value.lineStart;
      if LastLineEnd(bytes) <= start + TAIL_SNAPSHOT_SUFFIX_BYTES && RunAccepted(session, slots, bytes, start) then
        var r := SuffixReplay(session, slots, bytes, start);
        Tail(AttachMethod.TailRun, r.parser, r.reducer, EndCursor(bytes, LogCursor(start, 0)))
      else waiting
  }

  function TailCursors(files: Files, arena: LogCursor): Cursors {
    map c | c in files :: if c.Arena? then arena else TailEnd(files[c].bytes)
  }

  ghost function TailOf(session: Session, slots: Option<U16>, files: Files): Tail {
    if Component.Arena in files then ArenaTail(session, slots, files[Component.Arena].bytes) else Waiting(slots, "")
  }

  ghost function TailObserved(session: Session, slots: Option<U16>, files: Files): Observed {
    var tail := TailOf(session, slots, files);
    var cursors := TailCursors(files, tail.cursor);
    Observed(Replayed(tail.parser, tail.reducer, None, None), cursors, map c | c in files :: files[c].identity,
             Evidence(files, cursors))
  }

  // Cursors.

  lemma {:induction false} CompletionInside(session: Session, bytes: string, start: nat, cursor: LogCursor, scan: Scan)
    requires cursor.byteOffset <= |bytes|
    ensures var parse := ScanSnapshot(session, bytes, start, cursor, scan);
      parse.Complete? ==>
        && cursor.byteOffset < parse.completion.byteOffset <= |bytes|
        && IsBoundary(bytes, parse.completion.byteOffset)
        && (scan.header.Some? ==> parse.draftDeckId == scan.header.value.id)
    decreases |bytes| - cursor.byteOffset
  {
    hide Parse, ApplySourcedLine, CardsOf, ModeOf, Completes, HeaderOf, LineAt;
    var newline := NewlineFrom(bytes, cursor.byteOffset);
    if newline.Some? {
      var i := newline.value;
      var line := LineAt(Component.Arena, bytes, cursor, i);
      var header := if scan.header.Some? then scan.header else HeaderOf(Parse(scan.parser, line).1);
      if header.Some? {
        CompletionInside(session, bytes, start, LogCursor(i + 1, cursor.lineNumber + 1),
                         ReadInto(session, scan, line, header.value));
      }
    }
  }

  // Which run a hydrated snapshot belongs to.

  /** The first line of a complete snapshot is its header. */
  lemma FirstHeader(session: Session, slots: Option<U16>, bytes: string, start: nat)
    requires start <= |bytes| && NewlineFrom(bytes, start).Some?
    requires ScanSnapshot(session, bytes, start, LogCursor(start, 0), FreshScan(slots)).Complete?
    ensures var snapshot := ScanSnapshot(session, bytes, start, LogCursor(start, 0), FreshScan(slots));
      var newline := NewlineFrom(bytes, start).value;
      && newline + 1 <= snapshot.completion.byteOffset <= |bytes|
      && IsBoundary(bytes, snapshot.completion.byteOffset)
      && LineNames(FRESH_PARSER, ClassifyArena(ArenaRecord(bytes, start, newline).message)) == Some(snapshot.draftDeckId)
      && ClassifyArena(ArenaRecord(bytes, start, newline).message).DraftDeck?
  {
    hide ClassifyArena, CardsOf, ModeOf, ApplySourcedLine, NewReducer, Completes, ScanSnapshot, LineNames, Parse, HeaderOf,
      LineAt, ArenaRecord, NewlineFrom;
    ScanUnfolds(session, bytes, start, LogCursor(start, 0), FreshScan(slots));
    var cursor, scan := LogCursor(start, 0), FreshScan(slots);
    var newline := NewlineFrom(bytes, start).value;
    var line := LineAt(Component.Arena, bytes, cursor, newline);
    SameMessage(bytes, start, newline);
    var events := Parse(FRESH_PARSER, line).1;
    HeaderLineOnly(line);
    var header := HeaderOf(events);
    assert header.Some?;
    CompletionInside(session, bytes, start, LogCursor(newline + 1, 1), ReadInto(session, scan, line, header.value));
  }

  lemma SameMessage(bytes: string, start: nat, newline: nat)
    requires start <= newline < |bytes|
    ensures var line := LineAt(Component.Arena, bytes, LogCursor(start, 0), newline);
      line.component.Arena? && line.message == ArenaRecord(bytes, start, newline).message
  {
    hide SplitTimestamp, TrimLineEnd;
  }

  lemma HeaderLineOnly(line: RawLogLine)
    requires line.component.Arena?
    ensures var header := HeaderOf(Parse(FRESH_PARSER, line).1);
      header.Some? ==>
        && ClassifyArena(line.message).DraftDeck?
        && LineNames(FRESH_PARSER, ClassifyArena(line.message)) == Some(header.value.id)
  {
    hide ClassifyArena;
    var events := Parse(FRESH_PARSER, line).1;
    assert |events| == 2 ==> events[1..] == [events[1]] && [events[1]][1..] == [];
    assert |events| == 1 ==> events[1..] == [];
  }

  lemma SnapshotName(session: Session, slots: Option<U16>, bytes: string, start: nat)
    requires start <= |bytes| && NewlineFrom(bytes, start).Some?
    requires NoneFrom(bytes, ON_BEGIN, NewlineFrom(bytes, start).value + 1)
    requires NoneFrom(bytes, DRAFT_DECK, NewlineFrom(bytes, start).value + 1)
    requires SnapshotTail(session, slots, bytes, start).how.TailSnapshot?
    ensures var line := ClassifyArena(ArenaRecord(bytes, start, NewlineFrom(bytes, start).value).message);
      && line.DraftDeck? && RunName(SnapshotTail(session, slots, bytes, start).reducer.state) == Some(line.id)
  {
    hide ClassifyArena, ArenaRecord, PendingLines, ConsumeAll, NewReducer, Apply, ScanSnapshot, EndCursor, FreshScan,
      NewlineFrom, LastLineEnd, FoldFrom;
    var snapshot := ScanSnapshot(session, bytes, start, LogCursor(start, 0), FreshScan(slots));
    FirstHeader(session, slots, bytes, start);
    var event := ArenaAuthoritativeResync(
      snapshot.draftDeckId, snapshot.heroCardId, snapshot.cardIds, snapshot.draftMode);
    EventKeepsConfiguration(NewReducer(slots), event);
    var r := Replayed(snapshot.parser, Synced(slots, snapshot), None, None);
    FoldIsReplay(session, r, bytes, snapshot.completion, false);
    NoNamesLeft(session, bytes, snapshot.completion.byteOffset, CoreOf(r));
  }

  /** The run an Arena log ends in, when its last naming line is the snapshot header at `start`. */
  lemma HistoryName(session: Session, slots: Option<U16>, identity: nat, bytes: string, start: nat)
    requires start <= |bytes| && IsBoundary(bytes, start) && NewlineFrom(bytes, start).Some?
    requires NoneFrom(bytes, ON_BEGIN, NewlineFrom(bytes, start).value + 1)
    requires NoneFrom(bytes, DRAFT_DECK, NewlineFrom(bytes, start).value + 1)
    ensures AttachFull(session, slots, ArenaOnly(identity, bytes[..start])).Ok?
    ensures AttachFull(session, slots, ArenaOnly(identity, bytes)).Ok?
    ensures var before := CoreOf(AttachFull(session, slots, ArenaOnly(identity, bytes[..start])).value.replay);
      var named := LineNames(
        before.parser, ClassifyArena(ArenaRecord(bytes, start, NewlineFrom(bytes, start).value).message));
      RunName(AttachFull(session, slots, ArenaOnly(identity, bytes)).value.replay.reducer.state)
      == if named.Some? then named else RunName(before.reducer)
  {
    hide AttachFull, PendingEvents, ConsumeAll, StepCore, ClassifyArena, ArenaRecord, NewReducer, LineNames, FoldFrom;
    var fresh_ := FreshReplay(slots);
    ArenaReplay(session, slots, identity, bytes);
    ArenaReplay(session, slots, identity, bytes[..start]);
    FoldIsReplay(session, fresh_, bytes, START_CURSOR, true);
    FoldIsReplay(session, fresh_, bytes[..start], START_CURSOR, true);
    FoldPasses(session, bytes, 0, start, CoreOf(fresh_));
    var before := FoldFrom(session, bytes[..start], 0, CoreOf(fresh_));
    var i := NewlineFrom(bytes, start).value;
    var line := ArenaRecord(bytes, start, i);
    ArenaRecordIsArena(bytes, start, i);
    FoldOne(session, bytes, start, before);
    StepKeepsConfiguration(session, before, line);
    NoNamesLeft(session, bytes, i + 1, StepCore(session, before, line));
  }

  /** A hydrated snapshot names the run of its header. The complete history names the same run if and only if no
      Redraft boundary was pending at the header, or the run was called that already: under a pending boundary
      the history takes the header for a repeated listing of retained cards, the tail for a new snapshot. */
  lemma TailSnapshotNamesRunIff(session: Session, slots: Option<U16>, identity: nat, bytes: string)
    requires ArenaTail(session, slots, bytes).how.TailSnapshot?
    ensures ReverseSearch.NaiveLastLine(bytes, DRAFT_DECK).Some?
    ensures var start := ReverseSearch.NaiveLastLine(bytes, DRAFT_DECK).value.lineStart;
      var history := AttachFull(session, slots, ArenaOnly(identity, bytes));
      && start <= |bytes| && history.Ok?
      && var before := AttachFull(session, slots, ArenaOnly(identity, bytes[..start]));
      var name := RunName(ArenaTail(session, slots, bytes).reducer.state);
      && before.Ok? && name.Some?
      && (RunName(history.value.replay.reducer.state) == name <==>
            !before.value.replay.parser.redraftPending || RunName(before.value.replay.reducer.state) == name)
  {
    hide AttachFull, ClassifyArena, ArenaRecord, SnapshotTail, RunAccepted, SuffixReplay, ReverseSearch.NaiveLastLine,
      NoneFrom, NewlineFrom, Waiting;
    WaitingIsNoSnapshot(slots, bytes);
    var start := ReverseSearch.NaiveLastLine(bytes, DRAFT_DECK).value.lineStart;
    LastLineIsRecord(bytes, DRAFT_DECK);
    EarlierLine(bytes, ON_BEGIN, start);
    SnapshotName(session, slots, bytes, start);
    HistoryName(session, slots, identity, bytes, start);
  }

  lemma WaitingIsNoSnapshot(slots: Option<U16>, bytes: string)
    ensures !Waiting(slots, bytes).how.TailSnapshot?
  {
  }

  // The attach as the program runs it.

  /** Feeds every complete line from the reader's cursor on to the parser and the reducer. */
  method ReplayLines(session: Session, reader: ComponentLogReader, parser: HearthstoneLogParser, reducer: ArenaReducer)
    requires reader.Valid() && reader.component.Arena?
    modifies reader, parser, reducer
    ensures reader.Valid() && reader.cursor == EndCursor(reader.file.bytes, old(reader.cursor))
    ensures var r := ConsumeAll(session, Replayed(old(parser.Flags()), old(reducer.State()), None, None),
                                PendingLines(Component.Arena, reader.file.bytes, old(reader.cursor)));
      parser.Flags() == r.parser && reducer.State() == r.reducer
  {
    hide PendingLines, EndCursor, ConsumeAll, Parse, ApplySourcedLine;
    ghost var r := Replayed(parser.Flags(), reducer.State(), None, None);
    ghost var all := ConsumeAll(session, r, PendingLines(Component.Arena, reader.file.bytes, reader.cursor));
    while true
      invariant reader.Valid() && EndCursor(reader.file.bytes, reader.cursor) == EndCursor(reader.file.bytes, old(reader.cursor))
      invariant r.parser == parser.Flags() && r.reducer == reducer.State()
      invariant ConsumeAll(session, r, PendingLines(Component.Arena, reader.file.bytes, reader.cursor)) == all
      decreases |reader.file.bytes| - reader.cursor.byteOffset
    {
      var line := reader.NextCompleteLine();
      if line.None? {
        ConsumeNone(session, r);
        EndOfLines(reader.file.bytes, reader.cursor);
        return;
      }
      ConsumeAllCons(session, r, line.value, PendingLines(Component.Arena, reader.file.bytes, reader.cursor));
      var events := parser.ParseLine(line.value);
      reducer.ApplySourcedLine(SourceOf(session, line.value), events);
      r := Consume(session, r, line.value);
    }
  }

  lemma EndOfLines(bytes: string, cursor: LogCursor)
    requires cursor.byteOffset <= |bytes| && PendingLines(Component.Arena, bytes, cursor) == []
    ensures EndCursor(bytes, cursor) == cursor
  {
    hide Materialize, TrimLineEnd;
  }

  /** `find_map` over the events of one line. */
  method FindHeader(events: seq<GameEvent>) returns (header: Option<Header>)
    ensures header == HeaderOf(events)
  {
    for i := 0 to |events|
      invariant HeaderOf(events[i..]) == HeaderOf(events)
    {
      assert events[i..][1..] == events[i + 1..];
      match events[i] {
        case ArenaDeckSnapshotStarted(id, hero) => return Some(Header(id, hero));
        case _ =>
      }
    }
    return None;
  }

  method CollectSnapshot(events: seq<GameEvent>, cardIds: seq<CardId>, mode: Option<string>)
    returns (cardIds': seq<CardId>, mode': Option<string>, completed: bool)
    ensures cardIds' == cardIds + CardsOf(events) && mode' == ModeOf(mode, events) && completed == Completes(events)
  {
    hide CardsOf, ModeOf, Completes;
    cardIds', mode', completed := cardIds, mode, false;
    assert events[0..] == events && events[..0] == [];
    NothingCollected(mode);
    for i := 0 to |events|
      invariant cardIds' + CardsOf(events[i..]) == cardIds + CardsOf(events)
      invariant ModeOf(mode', events[i..]) == ModeOf(mode, events)
      invariant completed == Completes(events[..i])
    {
      CollectNext(events, i, mode');
      match events[i] {
        case ArenaDeckSnapshotCard(id) => cardIds' := cardIds' + [id];
        case ArenaDraftMode(raw) => mode' := Some(raw);
        case ArenaDeckSnapshotCompleted => completed := true;
        case _ =>
      }
    }
    assert events[..|events|] == events && events[|events|..] == [];
    NothingCollected(mode');
  }

  lemma NothingCollected(mode: Option<string>)
    ensures CardsOf([]) == [] && ModeOf(mode, []) == mode && !Completes([])
  {
  }

  /** What the next event adds. */
  lemma CollectNext(events: seq<GameEvent>, i: nat, mode: Option<string>)
    requires i < |events|
    ensures var event := events[i];
      && CardsOf(events[i..]) == (if event.ArenaDeckSnapshotCard? then [event.cardId] else []) + CardsOf(events[i + 1..])
      && ModeOf(mode, events[i..]) == ModeOf(if event.ArenaDraftMode? then Some(event.mode) else mode, events[i + 1..])
      && (Completes(events[..i + 1]) <==> Completes(events[..i]) || event.ArenaDeckSnapshotCompleted?)
  {
    assert events[i..][1..] == events[i + 1..];
    assert events[..i + 1] == events[..i] + [events[i]];
  }

  /** One line of a snapshot; without a header it goes no further than the parser. */
  method ScanLine(
    session: Session, line: RawLogLine, parser: HearthstoneLogParser, reducer: ArenaReducer, header: Option<Header>,
    cardIds: seq<CardId>, mode: Option<string>)
    returns (header': Option<Header>, cardIds': seq<CardId>, mode': Option<string>, completed: bool)
    modifies parser, reducer
    ensures var parsed := Parse(old(parser.Flags()), line);
      && parser.Flags() == parsed.0
      && header' == (if header.Some? then header else HeaderOf(parsed.1))
      && (header'.None? ==> reducer.State() == old(reducer.State()))
      && (header'.Some? ==>
            && completed == Completes(parsed.1)
            && Scan(parser.Flags(), reducer.State(), header', cardIds', mode')
                 == ReadInto(session, Scan(old(parser.Flags()), old(reducer.State()), header, cardIds, mode), line, header'.value))
  {
    hide Parse, ApplySourcedLine, HeaderOf, CardsOf, ModeOf, Completes, SourceOf;
    header', cardIds', mode', completed := header, cardIds, mode, false;
    var events := parser.ParseLine(line);
    if header.None? {
      header' := FindHeader(events);
      if header'.None? {
        return;
      }
    }
    cardIds', mode', completed := CollectSnapshot(events, cardIds, mode);
    reducer.ApplySourcedLine(SourceOf(session, line), events);
  }

  method ParseSnapshotAt(session: Session, slots: Option<U16>, file: LogFile, start: nat)
    returns (snapshot: SnapshotParse, parser: HearthstoneLogParser, reducer: ArenaReducer)
    requires start <= |file.bytes|
    ensures fresh(parser) && fresh(reducer)
    ensures snapshot.Complete? ==>
      && ScanSnapshot(session, file.bytes, start, LogCursor(start, 0), FreshScan(slots)) == snapshot
      && parser.Flags() == snapshot.parser
    ensures snapshot.Incomplete? ==>
      ScanSnapshot(session, file.bytes, start, LogCursor(start, 0), FreshScan(slots))
      == Incomplete(snapshot.bytesParsed, parser.Flags(), reducer.State())
  {
    hide ScanSnapshot, Parse, ApplySourcedLine, HeaderOf, CardsOf, ModeOf, Completes, LineAt, EndCursor, PendingLines,
      NewlineFrom, SourceOf, NewReducer;
    var reader := new ComponentLogReader.Open(Component.Arena, file, LogCursor(start, 0));
    parser := new HearthstoneLogParser();
    reducer := new ArenaReducer.WithExpectedDeckSlots(slots);
    var header: Option<Header>, cardIds: seq<CardId>, mode: Option<string> := None, [], None;
    while true
      invariant fresh(reader) && fresh(parser) && fresh(reducer)
      invariant reader.Valid() && reader.file == file && reader.component.Arena?
      invariant ScanSnapshot(session, file.bytes, start, reader.cursor,
                             Scan(parser.Flags(), reducer.State(), header, cardIds, mode))
        == ScanSnapshot(session, file.bytes, start, LogCursor(start, 0), FreshScan(slots))
      decreases |file.bytes| - reader.cursor.byteOffset
    {
      ScanUnfolds(session, file.bytes, start, reader.cursor, Scan(parser.Flags(), reducer.State(), header, cardIds, mode));
      var line := reader.NextCompleteLine();
      var bytesParsed := Max(reader.cursor.byteOffset - start, 0);
      if line.None? || bytesParsed > TAIL_SNAPSHOT_PARSE_BYTES {
        snapshot := SnapshotParse.Incomplete(bytesParsed, parser.Flags(), reducer.State());
        return;
      }
      var completed;
      header, cardIds, mode, completed := ScanLine(session, line.value, parser, reducer, header, cardIds, mode);
      if header.None? {
        snapshot := SnapshotParse.Incomplete(bytesParsed, parser.Flags(), reducer.State());
        return;
      }
      if completed {
        snapshot := SnapshotParse.Complete(
          header.value.id, header.value.hero, cardIds, mode, reader.cursor, bytesParsed, parser.Flags());
        return;
      }
    }
  }

  lemma ScanUnfolds(session: Session, bytes: string, start: nat, cursor: LogCursor, scan: Scan)
    requires cursor.byteOffset <= |bytes|
    ensures ScanSnapshot(session, bytes, start, cursor, scan) == match NewlineFrom(bytes, cursor.byteOffset)
      case None => Incomplete(Parsed(start, cursor), scan.parser, scan.reducer)
      case Some(i) =>
        var next := LogCursor(i + 1, cursor.lineNumber + 1);
        var line := LineAt(Component.Arena, bytes, cursor, i);
        var parsed := Parse(scan.parser, line);
        var header := if scan.header.Some? then scan.header else HeaderOf(parsed.1);
        if Parsed(start, next) > TAIL_SNAPSHOT_PARSE_BYTES
        then Incomplete(Parsed(start, next), scan.parser, scan.reducer)
        else if header.None? then Incomplete(Parsed(start, next), parsed.0, scan.reducer)
        else if Completes(parsed.1)
        then SnapshotParse.Complete(
          header.value.id, header.value.hero, scan.cardIds + CardsOf(parsed.1), ModeOf(scan.mode, parsed.1), next,
          Parsed(start, next), parsed.0)
        else ScanSnapshot(session, bytes, start, next, ReadInto(session, scan, line, header.value))
  {
    hide Parse, ApplySourcedLine, HeaderOf, CardsOf, ModeOf, Completes, LineAt;
  }

  /** The parts of a tail-attached observer. */
  predicate Built(
    tail: Tail, how: AttachMethod, parser: HearthstoneLogParser, reducer: ArenaReducer, cursor: LogCursor)
    reads parser, reducer
  {
    tail == Tail(how, parser.Flags(), reducer.State(), cursor)
  }

  method HydrateSnapshot(session: Session, slots: Option<U16>, file: LogFile, start: nat, arenaEnd: LogCursor)
    returns (how: AttachMethod, parser: HearthstoneLogParser, reducer: ArenaReducer, cursor: LogCursor)
    requires start <= |file.bytes| && arenaEnd == TailEnd(file.bytes)
    ensures fresh(parser) && fresh(reducer)
    ensures Built(SnapshotTail(session, slots, file.bytes, start), how, parser, reducer, cursor) && !how.TailRun?
  {
    hide ScanSnapshot, FreshScan, Apply, NewReducer, ConsumeAll, PendingLines, EndCursor, LastLineEnd;
    var snapshot;
    snapshot, parser, reducer := ParseSnapshotAt(session, slots, file, start);
    how, cursor := AwaitingSnapshot, arenaEnd;
    if snapshot.Complete? {
      how := TailSnapshot;
      reducer := new ArenaReducer.WithExpectedDeckSlots(slots);
      reducer.Apply(ArenaAuthoritativeResync(
        snapshot.draftDeckId, snapshot.heroCardId, snapshot.cardIds, snapshot.draftMode));
      if arenaEnd.byteOffset <= snapshot.completion.byteOffset + TAIL_SNAPSHOT_SUFFIX_BYTES {
        var reader := new ComponentLogReader.Open(Component.Arena, file, snapshot.completion);
        ReplayLines(session, reader, parser, reducer);
        cursor := reader.cursor;
      }
    }
  }

  method AttachSnapshot(session: Session, slots: Option<U16>, file: LogFile, arenaEnd: LogCursor,
                        runStart: Option<ReverseSearch.LineMatch>)
    returns (how: AttachMethod, parser: HearthstoneLogParser, reducer: ArenaReducer, cursor: LogCursor)
    requires arenaEnd == TailEnd(file.bytes) && runStart == ReverseSearch.NaiveLastLine(file.bytes, ON_BEGIN)
    ensures fresh(parser) && fresh(reducer)
    ensures Built(FromSnapshot(session, slots, file.bytes), how, parser, reducer, cursor) && !how.TailRun?
  {
    hide SnapshotTail, ReverseSearch.NaiveLastLine, LastLineEnd, NewReducer;
    var found := ReverseSearch.FindLastLineContaining(file.bytes, DRAFT_DECK, REVERSE_SEARCH_CHUNK_BYTES);
    var marker := found.value;
    if marker.Some? && marker.value.complete && !(runStart.Some? && runStart.value.lineStart > marker.value.lineStart) {
      LastLineIsRecord(file.bytes, DRAFT_DECK);
      how, parser, reducer, cursor := HydrateSnapshot(session, slots, file, marker.value.lineStart, arenaEnd);
    } else {
      parser := new HearthstoneLogParser();
      reducer := new ArenaReducer.WithExpectedDeckSlots(slots);
      how, cursor := AwaitingSnapshot, arenaEnd;
    }
  }

  method AttachArena(session: Session, slots: Option<U16>, file: LogFile, arenaEnd: LogCursor)
    returns (how: AttachMethod, parser: HearthstoneLogParser, reducer: ArenaReducer, cursor: LogCursor)
    requires arenaEnd == TailEnd(file.bytes)
    ensures fresh(parser) && fresh(reducer)
    ensures Built(ArenaTail(session, slots, file.bytes), how, parser, reducer, cursor)
  {
    hide FromSnapshot, ReverseSearch.NaiveLastLine, ConsumeAll, PendingLines, EndCursor, LastLineEnd, NewReducer;
    var found := ReverseSearch.FindLastLineContaining(file.bytes, ON_BEGIN, REVERSE_SEARCH_CHUNK_BYTES);
    var runStart := found.value;
    how, parser, reducer, cursor := AttachSnapshot(session, slots, file, arenaEnd, runStart);
    if how.AwaitingSnapshot? && runStart.Some? && runStart.value.complete {
      LastLineIsRecord(file.bytes, ON_BEGIN);
      var start := runStart.value.lineStart;
      if arenaEnd.byteOffset <= start + TAIL_SNAPSHOT_SUFFIX_BYTES {
        var runParser := new HearthstoneLogParser();
        var runReducer := new ArenaReducer.WithExpectedDeckSlots(slots);
        var reader := new ComponentLogReader.Open(Component.Arena, file, LogCursor(start, 0));
        ReplayLines(session, reader, runParser, runReducer);
        if runReducer.snapshot.run.draftDeckId.Some? {
          how, parser, reducer, cursor := AttachMethod.TailRun, runParser, runReducer, reader.cursor;
        }
      }
    }
  }

  // Every component.

  lemma TailCursorFits(session: Session, slots: Option<U16>, bytes: string)
    ensures ArenaTail(session, slots, bytes).cursor.byteOffset <= |bytes|
  {
    hide ScanSnapshot, Apply, NewReducer, ConsumeAll, PendingLines, ReverseSearch.NaiveLastLine, RunAccepted, Synced,
      SuffixReplay, FreshReplay;
  }

  /** The next component's cursor. */
  method StartNext(observer: SessionObserver, files: LogFiles, arena: LogCursor, i: nat)
    requires i < 5 && InFiles(View(files), TailCursors(View(files), arena))
    requires observer.cursors == SavedCursors(map[], TailCursors(View(files), arena), i)
    requires observer.witnesses == SavedEvidence(map[], View(files), TailCursors(View(files), arena), i)
    modifies observer`cursors, observer`witnesses
    ensures observer.cursors == SavedCursors(map[], TailCursors(View(files), arena), i + 1)
    ensures observer.witnesses == SavedEvidence(map[], View(files), TailCursors(View(files), arena), i + 1)
  {
    hide Witnessed, Evidence, LastLineEnd;
    ComponentRanks();
    var c := COMPONENTS[i];
    if c in files {
      assert View(files)[c].bytes == files[c].bytes;
      var cursor := arena;
      if !c.Arena? {
        var offset := ReverseSearch.TailCursor(files[c].bytes, REVERSE_SEARCH_CHUNK_BYTES);
        cursor := LogCursor(offset, 0);
      }
      var _ := observer.SaveCursor(c, files[c], cursor);
    }
  }

  lemma TailCursorsInFiles(files: Files, arena: LogCursor)
    requires Component.Arena in files ==> arena.byteOffset <= |files[Component.Arena].bytes|
    ensures InFiles(files, TailCursors(files, arena))
  {
  }

  /** Puts the cursor of every component but Arena at its last newline. */
  method StartAtTails(observer: SessionObserver, files: LogFiles, arena: LogCursor)
    requires observer.cursors == map[] && observer.witnesses == map[]
    requires Component.Arena in files ==> arena.byteOffset <= |files[Component.Arena].bytes|
    modifies observer`cursors, observer`witnesses
    ensures observer.cursors == TailCursors(View(files), arena)
    ensures observer.witnesses == Evidence(View(files), TailCursors(View(files), arena))
  {
    hide Evidence, SavedCursors, SavedEvidence, InFiles, TailCursors;
    ghost var view := View(files);
    ghost var at := TailCursors(view, arena);
    TailCursorsInFiles(view, arena);
    NothingSaved(map[], map[], view, at);
    for i := 0 to 5
      invariant View(files) == view
      invariant observer.cursors == SavedCursors(map[], at, i)
      invariant observer.witnesses == SavedEvidence(map[], view, at, i)
    {
      StartNext(observer, files, arena, i);
    }
    SavedAll(map[], map[], view, at);
    assert map[] + at == at && (map[] - view.Keys) + Evidence(view, at) == Evidence(view, at);
  }

  method AttachToArena(session: Session, slots: Option<U16>, files: LogFiles)
    returns (how: AttachMethod, parser: HearthstoneLogParser, reducer: ArenaReducer, cursor: LogCursor)
    ensures fresh(parser) && fresh(reducer)
    ensures Built(TailOf(session, slots, View(files)), how, parser, reducer, cursor)
    ensures Component.Arena in files ==> cursor.byteOffset <= |files[Component.Arena].bytes|
  {
    hide ArenaTail, NewReducer, LastLineEnd;
    if Component.Arena in files {
      var file := files[Component.Arena];
      var offset := ReverseSearch.TailCursor(file.bytes, REVERSE_SEARCH_CHUNK_BYTES);
      TailCursorFits(session, slots, file.bytes);
      how, parser, reducer, cursor := AttachArena(session, slots, file, LogCursor(offset, 0));
    } else {
      parser := new HearthstoneLogParser();
      reducer := new ArenaReducer.WithExpectedDeckSlots(slots);
      how, cursor := AwaitingSnapshot, START_CURSOR;
    }
  }

  /** Attaches to what the session knows now, without replaying its history. */
  method AttachTail(session: Session, slots: Option<U16>, files: LogFiles)
    returns (observer: SessionObserver, how: AttachMethod)
    ensures fresh(observer) && fresh(observer.parser) && fresh(observer.reducer) && observer.session == session
    ensures observer.Model() == TailObserved(session, slots, View(files))
    ensures how == TailOf(session, slots, View(files)).how
  {
    hide TailOf, Evidence, TailCursors, ArenaReducer.State, HearthstoneLogParser.Flags;
    ghost var view := View(files);
    var parser, reducer, cursor;
    how, parser, reducer, cursor := AttachToArena(session, slots, files);
    observer := new SessionObserver.FromParts(session, parser, reducer);
    observer.identities := map c | c in files :: files[c].identity;
    StartAtTails(observer, files, cursor);
    assert View(files) == view;
  }
}
