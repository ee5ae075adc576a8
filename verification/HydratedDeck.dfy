/** The deck that the live attach hydrates, as the bytes of the Arena log describe it, and how it compares with the deck
    of the complete history. */
module HydratedDeck {
  import opened Prelude
  import opened Text
  import opened ArenaState
  import opened ReducerSpec
  import opened ReducerFrames
  import opened LogRecords
  import opened ReverseSearch
  import opened LineGrammar
  import opened LogParser
  import opened LogReader
  import opened ObserverSpec
  import opened TailRun
  import TailAttach
  import TailPolls
  import SuffixResets
  import PickDecks
  import WarmRestart
  import opened SnapshotRefresh

  // The listing of a snapshot, read off the log.

  /** What the complete record at this offset says. */
  function SaidAt(bytes: string, from: nat): ArenaLine
    requires from <= |bytes| && NewlineFrom(bytes, from).Some?
  {
    ClassifyArena(ArenaRecord(bytes, from, NewlineFrom(bytes, from).value).message)
  }

  /** The mode line that completes a listing. */
  predicate IsCompletion(line: ArenaLine) {
    line.ModeSet? && (line.mode == "DRAFTING" || line.mode == "ACTIVE_DRAFT_DECK" || line.mode == "REDRAFTING")
  }

  /** The cards that the records up to the first completing mode line say the deck contains. */
  function ListedFrom(bytes: string, from: nat): seq<CardId>
    requires from <= |bytes|
    decreases |bytes| - from
  {
    match NewlineFrom(bytes, from)
    case None => []
    case Some(i) =>
      var line := SaidAt(bytes, from);
      if IsCompletion(line) then []
      else (if line.DeckContains? then [line.card] else []) + ListedFrom(bytes, i + 1)
  }

  /** The first completing mode line: where it ends, and the mode. */
  datatype Completion = Completion(end: nat, mode: string)

  function CompletionFrom(bytes: string, from: nat): (r: Option<Completion>)
    requires from <= |bytes|
    ensures r.Some? ==> from < r.value.end <= |bytes|
    decreases |bytes| - from
  {
    match NewlineFrom(bytes, from)
    case None => None
    case Some(i) =>
      var line := SaidAt(bytes, from);
      if IsCompletion(line) then Some(Completion(i + 1, line.mode)) else CompletionFrom(bytes, i + 1)
  }

  /** No record from here on is a snapshot header. */
  predicate NoHeader(bytes: string, from: nat)
    requires from <= |bytes|
    decreases |bytes| - from
  {
    match NewlineFrom(bytes, from)
    case None => true
    case Some(i) => !SaidAt(bytes, from).DraftDeck? && !SaidAt(bytes, from).RunBegin? && NoHeader(bytes, i + 1)
  }

  /** No record from here on is a choice of a real card. */
  predicate NoChoice(bytes: string, from: nat)
    requires from <= |bytes|
    decreases |bytes| - from
  {
    match NewlineFrom(bytes, from)
    case None => true
    case Some(i) =>
      var line := SaidAt(bytes, from);
      !(line.ClientChoice? && IsRealCardId(line.card)) && NoChoice(bytes, i + 1)
  }

  lemma {:induction false} SentinelsGone(bytes: string, from: nat)
    requires from <= |bytes| && NoneFrom(bytes, ON_BEGIN, from) && NoneFrom(bytes, DRAFT_DECK, from)
    ensures NoHeader(bytes, from)
    decreases |bytes| - from
  {
    hide ClassifyArena, ArenaRecord, StartsAt, Contains;
    match NewlineFrom(bytes, from)
    case None =>
    case Some(i) =>
      var line := ArenaRecord(bytes, from, i);
      RecordHolds(bytes, from, i, ON_BEGIN);
      RecordHolds(bytes, from, i, DRAFT_DECK);
      NamingLineHasSentinel(line.message);
      SentinelsGone(bytes, i + 1);
  }

  // What the scan finds.

  lemma SaysTheSame(bytes: string, cursor: LogCursor, newline: nat)
    requires cursor.byteOffset <= newline < |bytes|
    ensures var line := LineAt(Component.Arena, bytes, cursor, newline);
      line.component.Arena? && line.message == ArenaRecord(bytes, cursor.byteOffset, newline).message
  {
    hide SplitTimestamp, TrimLineEnd;
  }

  lemma OneEvent(event: GameEvent, mode: Option<string>)
    ensures TailAttach.CardsOf([event]) == if event.ArenaDeckSnapshotCard? then [event.cardId] else []
    ensures TailAttach.ModeOf(mode, [event]) == if event.ArenaDraftMode? then Some(event.mode) else mode
    ensures TailAttach.Completes([event]) <==> event.ArenaDeckSnapshotCompleted?
  {
    assert [event][1..] == [] && [event][0] == event;
  }

  lemma CompletingEvents(raw: string, mode: Option<string>)
    ensures var events := [ArenaDeckSnapshotCompleted, ArenaDraftMode(raw)];
      TailAttach.CardsOf(events) == [] && TailAttach.ModeOf(mode, events) == Some(raw) && TailAttach.Completes(events)
  {
    var events := [ArenaDeckSnapshotCompleted, ArenaDraftMode(raw)];
    assert events[1..] == [ArenaDraftMode(raw)] && events[0].ArenaDeckSnapshotCompleted?;
    OneEvent(ArenaDraftMode(raw), mode);
  }

  /** What a line that is no header adds to the snapshot being read. */
  lemma LineAdds(p: ParserState, line: ArenaLine, mode: Option<string>)
    requires !line.DraftDeck?
    ensures var events := ParseArena(p, line).1;
      && TailAttach.CardsOf(events)
           == (if line.DeckContains? && p.readingDeck && !p.redraftPending then [line.card] else [])
      && (TailAttach.Completes(events) <==> IsCompletion(line) && p.readingDeck)
      && (line.ModeSet? ==> TailAttach.ModeOf(mode, events) == Some(line.mode))
  {
    hide IsRealCardId, TailAttach.CardsOf, TailAttach.ModeOf, TailAttach.Completes;
    TailAttach.NothingCollected(mode);
    match line
    case RunBegin(id) => OneEvent(ArenaRunStarted(id), mode);
    case HeroChosen(hero) => OneEvent(HeroCard(hero), mode);
    case DeckContains(card) => OneEvent(ArenaDeckSnapshotCard(card), mode);
    case ClientChoice(card) => OneEvent(ArenaPick(card), mode);
    case ModeSet(raw) =>
      OneEvent(ArenaDraftMode(raw), mode);
      CompletingEvents(raw, mode);
    case _ =>
  }

  /** One line of a listing that has its header. */
  lemma ScanStep(session: Session, bytes: string, start: nat, cursor: LogCursor, scan: TailAttach.Scan)
    requires cursor.byteOffset <= |bytes| && scan.header.Some?
    requires TailAttach.ScanSnapshot(session, bytes, start, cursor, scan).Complete?
    requires NewlineFrom(bytes, cursor.byteOffset).Some? ==> !SaidAt(bytes, cursor.byteOffset).DraftDeck?
    ensures NewlineFrom(bytes, cursor.byteOffset).Some?
    ensures var i, said := NewlineFrom(bytes, cursor.byteOffset).value, SaidAt(bytes, cursor.byteOffset);
      var snapshot := TailAttach.ScanSnapshot(session, bytes, start, cursor, scan);
      var next := LogCursor(i + 1, cursor.lineNumber + 1);
      var cards := scan.cardIds + (if said.DeckContains? && scan.parser.readingDeck && !scan.parser.redraftPending
                                   then [said.card] else []);
      if IsCompletion(said) && scan.parser.readingDeck then
        && snapshot.completion == next && snapshot.draftMode == Some(said.mode) && snapshot.cardIds == cards
        && snapshot.draftDeckId == scan.header.value.id && snapshot.heroCardId == scan.header.value.hero
        && snapshot.parser == ParseArena(scan.parser, said).0
      else
        exists read: TailAttach.Scan ::
          && snapshot == TailAttach.ScanSnapshot(session, bytes, start, next, read)
          && read.header == scan.header && read.cardIds == cards && read.parser == ParseArena(scan.parser, said).0
  {
    hide ClassifyArena, ArenaRecord, LineAt, ApplySourcedLine, TailAttach.CardsOf, TailAttach.ModeOf, TailAttach.Completes,
      TailAttach.ScanSnapshot, TailAttach.HeaderOf, ParseArena;
    TailAttach.ScanUnfolds(session, bytes, start, cursor, scan);
    var i := NewlineFrom(bytes, cursor.byteOffset).value;
    var line := LineAt(Component.Arena, bytes, cursor, i);
    SaysTheSame(bytes, cursor, i);
    LineAdds(scan.parser, ClassifyArena(line.message), scan.mode);
    var read := TailAttach.ReadInto(session, scan, line, scan.header.value);
  }

  lemma NextScan(session: Session, bytes: string, start: nat, cursor: LogCursor, scan: TailAttach.Scan)
    returns (read: TailAttach.Scan)
    requires cursor.byteOffset <= |bytes| && scan.header.Some?
    requires TailAttach.ScanSnapshot(session, bytes, start, cursor, scan).Complete?
    requires NewlineFrom(bytes, cursor.byteOffset).Some? ==> !SaidAt(bytes, cursor.byteOffset).DraftDeck?
    requires NewlineFrom(bytes, cursor.byteOffset).Some? ==>
      !(IsCompletion(SaidAt(bytes, cursor.byteOffset)) && scan.parser.readingDeck)
    ensures NewlineFrom(bytes, cursor.byteOffset).Some?
    ensures var i, said := NewlineFrom(bytes, cursor.byteOffset).value, SaidAt(bytes, cursor.byteOffset);
      && TailAttach.ScanSnapshot(session, bytes, start, cursor, scan)
           == TailAttach.ScanSnapshot(session, bytes, start, LogCursor(i + 1, cursor.lineNumber + 1), read)
      && read.header == scan.header && read.parser == ParseArena(scan.parser, said).0
      && read.cardIds == scan.cardIds + (if said.DeckContains? && scan.parser.readingDeck && !scan.parser.redraftPending
                                         then [said.card] else [])
  {
    hide SaidAt, TailAttach.ScanSnapshot, ParseArena, IsCompletion;
    ScanStep(session, bytes, start, cursor, scan);
    var i, said := NewlineFrom(bytes, cursor.byteOffset).value, SaidAt(bytes, cursor.byteOffset);
    read :| && TailAttach.ScanSnapshot(session, bytes, start, cursor, scan)
           == TailAttach.ScanSnapshot(session, bytes, start, LogCursor(i + 1, cursor.lineNumber + 1), read)
      && read.header == scan.header && read.parser == ParseArena(scan.parser, said).0
      && read.cardIds == scan.cardIds + (if said.DeckContains? && scan.parser.readingDeck && !scan.parser.redraftPending
                                         then [said.card] else []);
  }

  /** Outside a listing nothing completes any more. */
  lemma {:induction false} NeverCompletes(
    session: Session, bytes: string, start: nat, cursor: LogCursor, scan: TailAttach.Scan)
    requires cursor.byteOffset <= |bytes| && scan.header.Some? && !scan.parser.readingDeck
    requires NoHeader(bytes, cursor.byteOffset)
    ensures TailAttach.ScanSnapshot(session, bytes, start, cursor, scan).Incomplete?
    decreases |bytes| - cursor.byteOffset
  {
    hide SaidAt, TailAttach.ScanSnapshot, ParseArena;
    if TailAttach.ScanSnapshot(session, bytes, start, cursor, scan).Complete? {
      var read := NextScan(session, bytes, start, cursor, scan);
      StaysClosed(scan.parser, SaidAt(bytes, cursor.byteOffset));
      var i := NewlineFrom(bytes, cursor.byteOffset).value;
      NeverCompletes(session, bytes, start, LogCursor(i + 1, cursor.lineNumber + 1), read);
    }
  }

  lemma StaysClosed(p: ParserState, line: ArenaLine)
    requires !p.readingDeck && !line.DraftDeck?
    ensures !ParseArena(p, line).0.readingDeck
  {
    hide IsRealCardId;
  }

  /** The parser in the middle of a listing. */
  predicate InListing(p: ParserState) { p.readingDeck && !p.redraftPending }

  lemma ListingLine(p: ParserState, line: ArenaLine)
    requires InListing(p) && !line.DraftDeck? && !line.RunBegin?
    ensures var next := ParseArena(p, line).0;
      && (IsCompletion(line) ==> !next.readingDeck && !next.redraftPending)
      && (!IsCompletion(line) ==> InListing(next) || !next.readingDeck)
      && (line.RedraftBegin? <==> !IsCompletion(line) && !next.readingDeck)
  {
    hide IsRealCardId;
  }

  /** Up to the completing mode line there is no Redraft boundary. */
  predicate ListedWithoutBoundary(bytes: string, from: nat)
    requires from <= |bytes|
    decreases |bytes| - from
  {
    match NewlineFrom(bytes, from)
    case None => true
    case Some(i) =>
      var line := SaidAt(bytes, from);
      IsCompletion(line) || (!line.RedraftBegin? && ListedWithoutBoundary(bytes, i + 1))
  }

  /** The parser flags after the listing and the mode line that completes it. */
  function FlagsAfterListing(bytes: string, from: nat, p: ParserState): ParserState
    requires from <= |bytes|
    decreases |bytes| - from
  {
    match NewlineFrom(bytes, from)
    case None => p
    case Some(i) =>
      var line := SaidAt(bytes, from);
      var next := ParseArena(p, line).0;
      if IsCompletion(line) then next else FlagsAfterListing(bytes, i + 1, next)
  }

  /** A scan that completes ends with the first completing mode line, has met no Redraft boundary before it, and holds
      exactly the listed cards. */
  lemma {:induction false} ScanIsListing(
    session: Session, bytes: string, start: nat, cursor: LogCursor, scan: TailAttach.Scan)
    requires cursor.byteOffset <= |bytes| && scan.header.Some? && InListing(scan.parser)
    requires NoHeader(bytes, cursor.byteOffset)
    requires TailAttach.ScanSnapshot(session, bytes, start, cursor, scan).Complete?
    ensures var snapshot := TailAttach.ScanSnapshot(session, bytes, start, cursor, scan);
      var completion := CompletionFrom(bytes, cursor.byteOffset);
      && completion.Some? && snapshot.completion.byteOffset == completion.value.end
      && snapshot.draftMode == Some(completion.value.mode)
      && snapshot.cardIds == scan.cardIds + ListedFrom(bytes, cursor.byteOffset)
      && snapshot.draftDeckId == scan.header.value.id && snapshot.heroCardId == scan.header.value.hero
      && snapshot.parser == FlagsAfterListing(bytes, cursor.byteOffset, scan.parser)
      && ListedWithoutBoundary(bytes, cursor.byteOffset)
    decreases |bytes| - cursor.byteOffset
  {
    hide SaidAt, TailAttach.ScanSnapshot, ParseArena;
    ScanStep(session, bytes, start, cursor, scan);
    var i, said := NewlineFrom(bytes, cursor.byteOffset).value, SaidAt(bytes, cursor.byteOffset);
    ListingLine(scan.parser, said);
    if IsCompletion(said) {
      assert scan.cardIds + [] == scan.cardIds;
    } else {
      var read := NextScan(session, bytes, start, cursor, scan);
      var next := LogCursor(i + 1, cursor.lineNumber + 1);
      if said.RedraftBegin? {
        NeverCompletes(session, bytes, start, next, read);
      } else {
        ScanIsListing(session, bytes, start, next, read);
        assert (scan.cardIds + (if said.DeckContains? then [said.card] else [])) + ListedFrom(bytes, i + 1)
            == scan.cardIds + ListedFrom(bytes, cursor.byteOffset);
      }
    }
  }

  // What the live attach hydrates.

  /** The log's newest mention of a snapshot header is a complete record. */
  predicate HasHeader(bytes: string) {
    var newest := NaiveLastLine(bytes, DRAFT_DECK);
    && newest.Some? && newest.value.lineStart <= |bytes| && NewlineFrom(bytes, newest.value.lineStart).Some?
    && SaidAt(bytes, newest.value.lineStart).DraftDeck?
  }

  function HeaderAt(bytes: string): nat
    requires HasHeader(bytes)
  {
    NaiveLastLine(bytes, DRAFT_DECK).value.lineStart
  }

  /** Where the listing under the newest header begins. */
  function ListingAt(bytes: string): (r: nat)
    requires HasHeader(bytes)
    ensures r <= |bytes|
  {
    NewlineFrom(bytes, HeaderAt(bytes)).value + 1
  }

  /** The reducer holds exactly the listed real cards, each as often as it is listed, and the run of this header in the
      phase of this mode. */
  ghost predicate Holds(s: ReducerState, header: ArenaLine, cards: seq<CardId>, mode: string)
    requires header.DraftDeck?
  {
    && (forall c :: c in s.deckCounts <==> IsRealCardId(c) && c in cards)
    && (forall c | c in s.deckCounts :: s.deckCounts[c] == multiset(cards)[c])
    && s.snapshot.deck == DeckCards(s.deckCounts)
    && s.snapshot.run == RunState(Some(header.id), true, AuthoritativeResync, Some(mode), DraftPhase.FromLog(mode))
    && s.snapshot.heroClass == (if header.hero.Some? then HeroClass.OfHeroCard(header.hero.value) else None)
    && s.snapshot.draft.selections == [] && s.snapshot.draft.phasePickCount == 0
  }

  /** What the parser knows after the header, the listing and the completing mode line. */
  function ListingFlags(bytes: string): ParserState
    requires HasHeader(bytes)
  {
    FlagsAfterListing(bytes, ListingAt(bytes), FRESH_PARSER.(readingDeck := true))
  }

  lemma NewestHeader(session: Session, slots: Option<U16>, bytes: string)
    requires TailAttach.ArenaTail(session, slots, bytes).how.TailSnapshot?
    ensures var marker, runStart := NaiveLastLine(bytes, DRAFT_DECK), NaiveLastLine(bytes, ON_BEGIN);
      && marker.Some? && marker.value.complete && marker.value.lineStart <= |bytes|
      && (runStart.Some? ==> runStart.value.lineStart <= marker.value.lineStart)
      && TailAttach.ArenaTail(session, slots, bytes)
           == TailAttach.SnapshotTail(session, slots, bytes, marker.value.lineStart)
  {
    hide TailAttach.SnapshotTail, RunAccepted, SuffixReplay, NaiveLastLine, NoneFrom, NewlineFrom, TailAttach.Waiting,
      LastLineEnd, EndCursor, StartsAt;
    TailAttach.WaitingIsNoSnapshot(slots, bytes);
    LastLineIsRecord(bytes, DRAFT_DECK);
  }

  lemma HeaderFound(session: Session, slots: Option<U16>, bytes: string)
    requires TailAttach.ArenaTail(session, slots, bytes).how.TailSnapshot?
    ensures var newest := NaiveLastLine(bytes, DRAFT_DECK);
      && newest.Some? && newest.value.lineStart <= |bytes| && NewlineFrom(bytes, newest.value.lineStart).Some?
      && IsBoundary(bytes, newest.value.lineStart)
      && TailAttach.ArenaTail(session, slots, bytes)
           == TailAttach.SnapshotTail(session, slots, bytes, newest.value.lineStart)
      && NoHeader(bytes, NewlineFrom(bytes, newest.value.lineStart).value + 1)
  {
    hide TailAttach.SnapshotTail, TailAttach.ArenaTail, NaiveLastLine, NoneFrom, NewlineFrom, NoHeader;
    NewestHeader(session, slots, bytes);
    var start := NaiveLastLine(bytes, DRAFT_DECK).value.lineStart;
    LastLineIsRecord(bytes, DRAFT_DECK);
    EarlierLine(bytes, ON_BEGIN, start);
    SentinelsGone(bytes, NewlineFrom(bytes, start).value + 1);
  }

  lemma HeaderEvent(line: RawLogLine)
    requires line.component.Arena?
    ensures var header := ClassifyArena(line.message);
      if header.DraftDeck? then
        && Parse(FRESH_PARSER, line).0 == FRESH_PARSER.(readingDeck := true)
        && TailAttach.HeaderOf(Parse(FRESH_PARSER, line).1) == Some(TailAttach.Header(header.id, header.hero))
        && TailAttach.CardsOf(Parse(FRESH_PARSER, line).1) == []
        && !TailAttach.Completes(Parse(FRESH_PARSER, line).1)
      else TailAttach.HeaderOf(Parse(FRESH_PARSER, line).1).None?
  {
    hide ClassifyArena, TailAttach.CardsOf, TailAttach.Completes;
    TailAttach.HeaderLineOnly(line);
    if ClassifyArena(line.message).DraftDeck? {
      var header := ClassifyArena(line.message);
      OneEvent(ArenaDeckSnapshotStarted(header.id, header.hero), None);
    }
  }

  /** The complete snapshot that a live attach reads, as the bytes have it. */
  lemma SnapshotIsListing(session: Session, slots: Option<U16>, bytes: string, start: nat)
    requires start <= |bytes| && NewlineFrom(bytes, start).Some? && NoHeader(bytes, NewlineFrom(bytes, start).value + 1)
    requires TailAttach.ScanSnapshot(session, bytes, start, LogCursor(start, 0), TailAttach.FreshScan(slots)).Complete?
    ensures SaidAt(bytes, start).DraftDeck?
    ensures var snapshot :=
        TailAttach.ScanSnapshot(session, bytes, start, LogCursor(start, 0), TailAttach.FreshScan(slots));
      var from := NewlineFrom(bytes, start).value + 1;
      && snapshot.draftMode.Some? && snapshot.cardIds == ListedFrom(bytes, from)
      && CompletionFrom(bytes, from) == Some(Completion(snapshot.completion.byteOffset, snapshot.draftMode.value))
      && snapshot.draftDeckId == SaidAt(bytes, start).id && snapshot.heroCardId == SaidAt(bytes, start).hero
      && snapshot.parser == FlagsAfterListing(bytes, from, FRESH_PARSER.(readingDeck := true))
      && ListedWithoutBoundary(bytes, from)
  {
    hide ClassifyArena, ArenaRecord, LineAt, ApplySourcedLine, TailAttach.CardsOf, TailAttach.ModeOf, TailAttach.Completes,
      TailAttach.ScanSnapshot, TailAttach.HeaderOf, Parse, NewReducer, FlagsAfterListing, CompletionFrom, ListedFrom;
    var cursor, scan := LogCursor(start, 0), TailAttach.FreshScan(slots);
    TailAttach.ScanUnfolds(session, bytes, start, cursor, scan);
    var i := NewlineFrom(bytes, start).value;
    var line := LineAt(Component.Arena, bytes, cursor, i);
    SaysTheSame(bytes, cursor, i);
    HeaderEvent(line);
    var read := TailAttach.ReadInto(session, scan, line, TailAttach.HeaderOf(Parse(FRESH_PARSER, line).1).value);
    ScanIsListing(session, bytes, start, LogCursor(i + 1, 1), read);
  }

  /** Right after hydration a live attach holds exactly the real cards that the log lists between its newest header and the
      first completing mode line, each as often as listed, and the run, hero and phase of these two lines; from there on
      it folds the records after the completion, if they are few enough, and nothing otherwise. */
  lemma HydratedFromBytes(session: Session, slots: Option<U16>, bytes: string)
    requires TailAttach.ArenaTail(session, slots, bytes).how.TailSnapshot?
    ensures HasHeader(bytes)
    ensures CompletionFrom(bytes, ListingAt(bytes)).Some? && ListedWithoutBoundary(bytes, ListingAt(bytes))
    ensures var completion := CompletionFrom(bytes, ListingAt(bytes)).value;
      exists s: ReducerState ::
        && Holds(s, SaidAt(bytes, HeaderAt(bytes)), ListedFrom(bytes, ListingAt(bytes)), completion.mode)
        && SameConfiguration(s, NewReducer(slots))
        && TailPolls.TailCore(TailAttach.ArenaTail(session, slots, bytes))
             == if LastLineEnd(bytes) <= completion.end + TailAttach.TAIL_SNAPSHOT_SUFFIX_BYTES
                then FoldFrom(session, bytes, completion.end, Core(ListingFlags(bytes), s))
                else Core(ListingFlags(bytes), s)
  {
    hide ClassifyArena, ArenaRecord, NaiveLastLine, NoneFrom, NewlineFrom, NoHeader, TailAttach.ArenaTail, CompletionFrom,
      ListedFrom, FlagsAfterListing, TailAttach.ScanSnapshot, TailAttach.FreshScan, NewReducer, ReducerSpec.Apply,
      ConsumeAll, PendingLines, EndCursor, LastLineEnd, FoldFrom, Holds, TailAttach.TailEnd;
    HeaderFound(session, slots, bytes);
    var start := NaiveLastLine(bytes, DRAFT_DECK).value.lineStart;
    SnapshotIsListing(session, slots, bytes, start);
    var snapshot := TailAttach.ScanSnapshot(session, bytes, start, LogCursor(start, 0), TailAttach.FreshScan(slots));
    var r := Replayed(snapshot.parser, TailAttach.Synced(slots, snapshot), None, None);
    SyncedHolds(slots, snapshot, SaidAt(bytes, start));
    FoldIsReplay(session, r, bytes, snapshot.completion, false);
    var s := TailAttach.Synced(slots, snapshot).state;
    assert Holds(s, SaidAt(bytes, start), snapshot.cardIds, snapshot.draftMode.value);
  }

  lemma SyncedHolds(slots: Option<U16>, snapshot: TailAttach.SnapshotParse, header: ArenaLine)
    requires snapshot.Complete? && snapshot.draftMode.Some? && header.DraftDeck?
    requires snapshot.draftDeckId == header.id && snapshot.heroCardId == header.hero
    ensures var s := TailAttach.Synced(slots, snapshot).state;
      Holds(s, header, snapshot.cardIds, snapshot.draftMode.value) && SameConfiguration(s, NewReducer(slots))
  {
    hide ReducerSpec.Apply, NewReducer, DeckCards, HeroClass.OfHeroCard, DraftPhase.FromLog, IsRealCardId;
    var event := ArenaAuthoritativeResync(
      snapshot.draftDeckId, snapshot.heroCardId, snapshot.cardIds, snapshot.draftMode);
    PickDecks.ResyncHolds(
      NewReducer(slots), snapshot.draftDeckId, snapshot.heroCardId, snapshot.cardIds, snapshot.draftMode.value);
    EventKeepsConfiguration(NewReducer(slots), event);
  }

  // What the complete history makes of the same records.

  /** A line that begins no run or listing and attributes no choice. */
  predicate Quiet(line: ArenaLine) {
    !line.DraftDeck? && !line.RunBegin? && !(line.ClientChoice? && IsRealCardId(line.card))
  }

  lemma StepEvents(session: Session, k: Core, line: RawLogLine)
    returns (noted: ReducerState)
    requires line.component.Arena?
    ensures var after, parsed := StepCore(session, k, line), ParseArena(k.parser, ClassifyArena(line.message));
      && after.parser == parsed.0
      && noted == k.reducer.(observations := noted.observations)
      && (parsed.1 == [] ==> after.reducer == k.reducer)
      && (|parsed.1| == 1 ==> after.reducer == Apply(noted, parsed.1[0]))
      && (|parsed.1| == 2 ==> after.reducer == Apply(Apply(noted, parsed.1[0]), parsed.1[1]))
  {
    hide ClassifyArena, ReducerSpec.Apply, ApplyAll, RecordEvents, ParseArena;
    var events := ParseArena(k.parser, ClassifyArena(line.message)).1;
    noted := k.reducer.(observations := RecordEvents(k.reducer.observations, SourceOf(session, line), events));
    if |events| == 1 {
      assert events == [events[0]];
      SuffixResets.ApplyTwo(noted, events[0], events[0]);
    } else if |events| == 2 {
      assert events == [events[0], events[1]];
      SuffixResets.ApplyTwo(noted, events[0], events[1]);
    }
  }

  /** These events move no card of the deck and no listing. */
  lemma PlainEvents(s: ReducerState, event: GameEvent)
    requires event.HeroCard? || event.ArenaDraftMode?
    ensures var r := Apply(s, event);
      r.deckCounts == s.deckCounts && r.occurrences == s.occurrences && r.priorCounts == s.priorCounts
  {
    hide DeckCards, DeckStateOf, PositiveCounts, DraftMode, HeroClass.OfHeroCard;
    if event.ArenaDraftMode? {
      WarmRestart.DraftModeTables(s, event.mode);
    }
  }

  lemma CompletedKeepsDeck(s: ReducerState, mode: string)
    ensures Apply(Apply(s, ArenaDeckSnapshotCompleted), ArenaDraftMode(mode)).deckCounts == s.deckCounts
  {
    hide ReducerSpec.Apply;
    SnapshotCloses(s);
    PlainEvents(Apply(s, ArenaDeckSnapshotCompleted), ArenaDraftMode(mode));
  }

  lemma QuietStep(session: Session, k: Core, line: RawLogLine)
    requires line.component.Arena? && Quiet(ClassifyArena(line.message)) && !k.parser.readingDeck
    ensures var next := StepCore(session, k, line);
      !next.parser.readingDeck && next.reducer.deckCounts == k.reducer.deckCounts
  {
    hide ClassifyArena, ReducerSpec.Apply, StepCore, IsRealCardId;
    var noted := StepEvents(session, k, line);
    var events := ParseArena(k.parser, ClassifyArena(line.message)).1;
    if |events| == 1 {
      PlainEvents(noted, events[0]);
    }
  }

  lemma RecordSays(bytes: string, from: nat)
    requires from <= |bytes| && NewlineFrom(bytes, from).Some?
    ensures var line := ArenaRecord(bytes, from, NewlineFrom(bytes, from).value);
      line.component.Arena? && ClassifyArena(line.message) == SaidAt(bytes, from)
  {
    hide ClassifyArena;
  }

  /** Quiet records outside a listing leave the deck alone. */
  lemma {:induction false} QuietFold(session: Session, bytes: string, from: nat, k: Core)
    requires from <= |bytes| && NoHeader(bytes, from) && NoChoice(bytes, from) && !k.parser.readingDeck
    ensures FoldFrom(session, bytes, from, k).reducer.deckCounts == k.reducer.deckCounts
    decreases |bytes| - from
  {
    hide ClassifyArena, ArenaRecord, StepCore, FoldFrom, IsRealCardId, SaidAt;
    FoldOne(session, bytes, from, k);
    match NewlineFrom(bytes, from)
    case None =>
    case Some(i) =>
      RecordSays(bytes, from);
      QuietStep(session, k, ArenaRecord(bytes, from, i));
      QuietFold(session, bytes, i + 1, StepCore(session, k, ArenaRecord(bytes, from, i)));
  }

  /** The deck after a listing: exactly the listed real cards, each with its proven count or one, unless it is listed more
      often. */
  ghost predicate DeckIs(counts: map<CardId, nat>, prior: Option<map<CardId, nat>>, cards: seq<CardId>) {
    forall id ::
      && (id in counts <==> IsRealCardId(id) && id in cards)
      && (id in counts ==> counts[id] == Max(PriorCount(prior, id), Min(multiset(cards)[id], 255)))
  }

  lemma ListedIsDeck(s: ReducerState, prior: Option<map<CardId, nat>>, cards: seq<CardId>)
    requires Listed(s, prior, cards)
    ensures DeckIs(s.deckCounts, prior, cards)
  {
    hide IsRealCardId, PriorCount;
    forall id
      ensures id in s.deckCounts <==> IsRealCardId(id) && id in cards
      ensures id in s.deckCounts ==> s.deckCounts[id] == Max(PriorCount(prior, id), Min(multiset(cards)[id], 255))
    {
      assert ListedCard(s, prior, cards, id);
      OccurrencesAreMultiplicity(cards, id);
    }
  }

  lemma ListingStep(
    session: Session, k: Core, line: RawLogLine, prior: Option<map<CardId, nat>>, done: seq<CardId>)
    requires line.component.Arena? && Quiet(ClassifyArena(line.message)) && !ClassifyArena(line.message).RedraftBegin?
    requires InListing(k.parser) && Listed(k.reducer, prior, done)
    ensures var next, said := StepCore(session, k, line), ClassifyArena(line.message);
      if IsCompletion(said) then !next.parser.readingDeck && next.reducer.deckCounts == k.reducer.deckCounts
      else InListing(next.parser) && Listed(next.reducer, prior, done + if said.DeckContains? then [said.card] else [])
  {
    hide ClassifyArena, ReducerSpec.Apply, StepCore, IsRealCardId, Listed, SnapshotCard;
    var noted := StepEvents(session, k, line);
    var said, next := ClassifyArena(line.message), StepCore(session, k, line);
    ListingLine(k.parser, said);
    SameListing(k.reducer, noted, prior, done);
    assert done + [] == done;
    match said
    case DeckContains(card) =>
      CardLineEffect(noted, card);
      SnapshotCardTouches(noted, card);
      ListOne(noted, prior, done, card);
      SameListing(SnapshotCard(noted, card), next.reducer, prior, done + [card]);
    case HeroChosen(hero) =>
      PlainEvents(noted, HeroCard(hero));
      SameListing(noted, next.reducer, prior, done);
    case ModeSet(mode) =>
      if IsCompletion(said) {
        CompletedKeepsDeck(noted, mode);
      } else {
        PlainEvents(noted, ArenaDraftMode(mode));
        SameListing(noted, next.reducer, prior, done);
      }
    case _ =>
  }

  /** The history reads the listing and leaves its deck alone from then on. */
  lemma {:induction false} ListingFold(
    session: Session, bytes: string, from: nat, k: Core, prior: Option<map<CardId, nat>>, done: seq<CardId>)
    requires from <= |bytes| && NoHeader(bytes, from) && NoChoice(bytes, from)
    requires ListedWithoutBoundary(bytes, from) && CompletionFrom(bytes, from).Some?
    requires InListing(k.parser) && Listed(k.reducer, prior, done)
    ensures DeckIs(FoldFrom(session, bytes, from, k).reducer.deckCounts, prior, done + ListedFrom(bytes, from))
    decreases |bytes| - from
  {
    hide ClassifyArena, ArenaRecord, StepCore, FoldFrom, IsRealCardId, SaidAt, Listed, DeckIs;
    FoldOne(session, bytes, from, k);
    var i, said := NewlineFrom(bytes, from).value, SaidAt(bytes, from);
    var line := ArenaRecord(bytes, from, i);
    var next := StepCore(session, k, line);
    RecordSays(bytes, from);
    ListingStep(session, k, line, prior, done);
    if IsCompletion(said) {
      QuietFold(session, bytes, i + 1, next);
      ListedIsDeck(k.reducer, prior, done);
      Append(done, [], []);
    } else {
      var card := if said.DeckContains? then [said.card] else [];
      ListingFold(session, bytes, i + 1, next, prior, done + card);
      Append(done, card, ListedFrom(bytes, i + 1));
    }
  }

  lemma Append<T>(a: seq<T>, b: seq<T>, c: seq<T>)
    ensures (a + b) + c == a + (b + c) && a + [] == a
  {
  }

  lemma HeaderStep(session: Session, k: Core, line: RawLogLine)
    requires line.component.Arena? && ClassifyArena(line.message).DraftDeck? && !k.parser.redraftPending
    ensures var next, id := StepCore(session, k, line), ClassifyArena(line.message).id;
      && InListing(next.parser)
      && Listed(next.reducer, if RefreshesKnownDeck(k.reducer, id) then Some(k.reducer.deckCounts) else None, [])
  {
    hide ClassifyArena, ReducerSpec.Apply, StepCore, Listed;
    var noted := StepEvents(session, k, line);
    SnapshotOpens(noted, ClassifyArena(line.message).id, ClassifyArena(line.message).hero);
  }

  lemma HistoryDeck(session: Session, slots: Option<U16>, identity: nat, bytes: string, start: nat)
    requires start <= |bytes| && IsBoundary(bytes, start) && NewlineFrom(bytes, start).Some?
    requires SaidAt(bytes, start).DraftDeck?
    requires var from := NewlineFrom(bytes, start).value + 1;
      NoHeader(bytes, from) && NoChoice(bytes, from) && ListedWithoutBoundary(bytes, from) && CompletionFrom(bytes, from).Some?
    requires !TailPolls.HistoryCore(session, slots, identity, bytes[..start]).parser.redraftPending
    ensures var before := TailPolls.HistoryCore(session, slots, identity, bytes[..start]).reducer;
      DeckIs(TailPolls.HistoryCore(session, slots, identity, bytes).reducer.deckCounts,
             if RefreshesKnownDeck(before, SaidAt(bytes, start).id) then Some(before.deckCounts) else None,
             ListedFrom(bytes, NewlineFrom(bytes, start).value + 1))
  {
    hide AttachFull, PendingEvents, ConsumeAll, StepCore, ClassifyArena, ArenaRecord, NewReducer, FoldFrom, SaidAt, Listed,
      DeckIs, NoHeader, NoChoice, ListedWithoutBoundary, CompletionFrom, ListedFrom, NewlineFrom, IsBoundary;
    var fresh_ := FreshReplay(slots);
    TailPolls.NothingSeen(slots);
    ArenaReplay(session, slots, identity, bytes);
    ArenaReplay(session, slots, identity, bytes[..start]);
    FoldIsReplay(session, fresh_, bytes, START_CURSOR, true);
    FoldIsReplay(session, fresh_, bytes[..start], START_CURSOR, true);
    FoldPasses(session, bytes, 0, start, CoreOf(fresh_));
    var before := FoldFrom(session, bytes[..start], 0, CoreOf(fresh_));
    FoldOne(session, bytes, start, before);
    RecordSays(bytes, start);
    var i := NewlineFrom(bytes, start).value;
    HeaderStep(session, before, ArenaRecord(bytes, start, i));
    var prior := if RefreshesKnownDeck(before.reducer, SaidAt(bytes, start).id) then Some(before.reducer.deckCounts) else None;
    ListingFold(session, bytes, i + 1, StepCore(session, before, ArenaRecord(bytes, start, i)), prior, []);
    assert [] + ListedFrom(bytes, i + 1) == ListedFrom(bytes, i + 1);
  }

  lemma {:induction false} QuietAfterListing(bytes: string, from: nat, p: ParserState)
    requires from <= |bytes| && NoHeader(bytes, from) && NoChoice(bytes, from) && InListing(p)
    requires ListedWithoutBoundary(bytes, from) && CompletionFrom(bytes, from).Some?
    ensures var end := CompletionFrom(bytes, from).value.end; NoHeader(bytes, end) && NoChoice(bytes, end)
    ensures !FlagsAfterListing(bytes, from, p).readingDeck
    decreases |bytes| - from
  {
    hide SaidAt, ParseArena, IsRealCardId;
    var i, said := NewlineFrom(bytes, from).value, SaidAt(bytes, from);
    ListingLine(p, said);
    if !IsCompletion(said) {
      QuietAfterListing(bytes, i + 1, ParseArena(p, said).0);
    }
  }

  /** A Redraft boundary is pending where the newest header is. */
  predicate BoundaryPending(bytes: string) {
    HasHeader(bytes) && SuffixResets.PendingAt(bytes, HeaderAt(bytes))
  }

  /** Some record after the newest header is a choice of a real card. */
  predicate ChoiceFollows(bytes: string) {
    HasHeader(bytes) && !NoChoice(bytes, ListingAt(bytes))
  }

  lemma LiveDeck(session: Session, slots: Option<U16>, bytes: string)
    requires TailAttach.ArenaTail(session, slots, bytes).how.TailSnapshot? && !ChoiceFollows(bytes)
    ensures HasHeader(bytes)
    ensures var live := TailAttach.ArenaTail(session, slots, bytes).reducer.state.deckCounts;
      var cards := ListedFrom(bytes, ListingAt(bytes));
      && (forall c :: c in live <==> IsRealCardId(c) && c in cards)
      && (forall c | c in live :: live[c] == multiset(cards)[c])
  {
    hide ClassifyArena, NaiveLastLine, NewlineFrom, NoHeader, TailAttach.ArenaTail, CompletionFrom, ListedFrom, NoChoice,
      FlagsAfterListing, LastLineEnd, FoldFrom, SaidAt, DraftPhase.FromLog, IsRealCardId, HeroClass.OfHeroCard;
    HeaderFound(session, slots, bytes);
    HydratedFromBytes(session, slots, bytes);
    QuietAfterListing(bytes, ListingAt(bytes), FRESH_PARSER.(readingDeck := true));
    var completion := CompletionFrom(bytes, ListingAt(bytes)).value;
    var s :| && Holds(s, SaidAt(bytes, HeaderAt(bytes)), ListedFrom(bytes, ListingAt(bytes)), completion.mode)
      && TailPolls.TailCore(TailAttach.ArenaTail(session, slots, bytes))
           == if LastLineEnd(bytes) <= completion.end + TailAttach.TAIL_SNAPSHOT_SUFFIX_BYTES
              then FoldFrom(session, bytes, completion.end, Core(ListingFlags(bytes), s))
              else Core(ListingFlags(bytes), s);
    QuietFold(session, bytes, completion.end, Core(ListingFlags(bytes), s));
  }

  lemma PendingHistory(session: Session, slots: Option<U16>, identity: nat, bytes: string, start: nat)
    requires start <= |bytes|
    ensures SuffixResets.PendingAt(bytes, start)
       <==> TailPolls.HistoryCore(session, slots, identity, bytes[..start]).parser.redraftPending
  {
    hide AttachFull, ConsumeAll, PendingEvents, FoldFrom, SuffixResets.FlagsAfter, NewReducer, SuffixResets.Resets;
    var prefix, fresh_ := bytes[..start], FreshReplay(slots);
    ArenaReplay(session, slots, identity, prefix);
    TailPolls.NothingSeen(slots);
    FoldIsReplay(session, fresh_, prefix, START_CURSOR, true);
    FreshCore(slots);
    SuffixResets.FoldStatus(session, prefix, 0, CoreOf(fresh_));
  }

  /** A live attach that hydrates, with no boundary pending at the header and no choice after it, holds the cards of the
      complete history. Its counts are the listed ones; the history's differ only in that they stop at 255 and that a
      refresh of a deck known before keeps the greater count. */
  lemma SameCards(session: Session, slots: Option<U16>, identity: nat, bytes: string)
    requires TailAttach.ArenaTail(session, slots, bytes).how.TailSnapshot?
    requires !BoundaryPending(bytes) && !ChoiceFollows(bytes)
    ensures HasHeader(bytes)
    ensures var live := TailAttach.ArenaTail(session, slots, bytes).reducer.state.deckCounts;
      var history := TailPolls.HistoryCore(session, slots, identity, bytes).reducer.deckCounts;
      var before := TailPolls.HistoryCore(session, slots, identity, bytes[..HeaderAt(bytes)]).reducer;
      && live.Keys == history.Keys
      && forall id | id in live ::
           && live[id] == multiset(ListedFrom(bytes, ListingAt(bytes)))[id]
           && history[id]
                == if SameDeckAgain(before, SaidAt(bytes, HeaderAt(bytes)).id) && id in before.deckCounts
                   then Max(before.deckCounts[id], Min(live[id], 255)) else Min(live[id], 255)
  {
    hide ClassifyArena, ArenaRecord, NaiveLastLine, NoneFrom, NewlineFrom, NoHeader, TailAttach.ArenaTail, CompletionFrom,
      ListedFrom, FlagsAfterListing, TailAttach.ScanSnapshot, NewReducer, LastLineEnd, FoldFrom, SaidAt, IsBoundary,
      TailPolls.HistoryCore, NoChoice, ListedWithoutBoundary, TailAttach.SnapshotTail, SuffixResets.PendingAt, DraftPhase.FromLog,
      IsRealCardId, HeroClass.OfHeroCard;
    HeaderFound(session, slots, bytes);
    LiveDeck(session, slots, bytes);
    HydratedFromBytes(session, slots, bytes);
    var start := HeaderAt(bytes);
    PendingHistory(session, slots, identity, bytes, start);
    HistoryDeck(session, slots, identity, bytes, start);
  }
}
