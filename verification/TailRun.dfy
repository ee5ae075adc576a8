/** Attaching from the newest run marker of an Arena log instead of replaying all of it. */
module TailRun {
  import opened Prelude
  import opened Text
  import opened ArenaState
  import opened ReducerSpec
  import opened ReducerFrames
  import opened LogRecords
  import opened ReverseSearch
  import opened LineGrammar
  import opened LogParser
  import opened LogReader
  import opened KWayMerge
  import opened ObserverSpec
  import Tailing

  // An Arena log as a fold over its complete records, without line numbers, prefilter or consumed sources.

  datatype Core = Core(parser: ParserState, reducer: ReducerState)

  function CoreOf(r: Replayed): Core {
    Core(r.parser, r.reducer.state)
  }

  function ArenaRecord(bytes: string, from: nat, newline: nat): RawLogLine
    requires from <= newline < |bytes|
  {
    Materialize(Component.Arena, 0, from, TrimLineEnd(bytes[from..newline + 1]))
  }

  ghost function StepCore(session: Session, k: Core, line: RawLogLine): Core {
    var parsed := Parse(k.parser, line);
    Core(parsed.0, if parsed.1 == [] then k.reducer else ConsumeLine(k.reducer, SourceOf(session, line), parsed.1))
  }

  ghost function FoldFrom(session: Session, bytes: string, from: nat, k: Core): Core
    requires from <= |bytes|
    decreases |bytes| - from
  {
    match NewlineFrom(bytes, from)
    case None => k
    case Some(i) => FoldFrom(session, bytes, i + 1, StepCore(session, k, ArenaRecord(bytes, from, i)))
  }

  /** Every consumed record lies before this offset. */
  ghost predicate SeenBelow(r: Replayed, bound: nat) {
    forall source | source in r.reducer.seen :: source.byteOffset < bound
  }

  lemma ConsumeIsStep(session: Session, r: Replayed, line: RawLogLine)
    requires SeenBelow(r, line.byteOffset)
    ensures CoreOf(Consume(session, r, line)) == StepCore(session, CoreOf(r), line.(lineNumber := 0))
    ensures SeenBelow(Consume(session, r, line), line.byteOffset + 1)
  {
    hide ConsumeLine, ParseArena, ParseZone, ParsePower, ParseLoadingScreen;
  }

  lemma SeenFurther(r: Replayed, a: nat, b: nat)
    requires SeenBelow(r, a) && a <= b
    ensures SeenBelow(r, b)
  {
  }

  lemma RejectedRecord(session: Session, k: Core, bytes: string, from: nat, newline: nat)
    requires from <= newline < |bytes|
    requires !MightEmitEvent(Component.Arena, TrimLineEnd(bytes[from..newline + 1]))
    ensures StepCore(session, k, ArenaRecord(bytes, from, newline)) == k
  {
    hide MightEmitEvent, ConsumeLine, Parse;
    PrefilterSound(k.parser, Component.Arena, 0, from, TrimLineEnd(bytes[from..newline + 1]));
  }

  lemma ConsumeAllCons(session: Session, r: Replayed, line: RawLogLine, rest: seq<RawLogLine>)
    ensures ConsumeAll(session, r, [line] + rest) == ConsumeAll(session, Consume(session, r, line), rest)
  {
    hide Consume;
    assert ([line] + rest)[1..] == rest;
  }

  /** Reading every line of an Arena log and reading only its event candidates come to the same. */
  lemma {:induction false} FoldIsReplay(session: Session, r: Replayed, bytes: string, cursor: LogCursor, events: bool)
    requires cursor.byteOffset <= |bytes| && SeenBelow(r, cursor.byteOffset)
    ensures var lines := if events then PendingEvents(Component.Arena, bytes, cursor)
                         else PendingLines(Component.Arena, bytes, cursor);
      CoreOf(ConsumeAll(session, r, lines)) == FoldFrom(session, bytes, cursor.byteOffset, CoreOf(r))
    decreases |bytes| - cursor.byteOffset
  {
    hide PendingEvents, PendingLines, MightEmitEvent, TrimLineEnd, StepCore, Consume, EndCursor, SeenBelow, SplitTimestamp;
    match NewlineFrom(bytes, cursor.byteOffset)
    case None =>
      NoNextRecord(Component.Arena, bytes, cursor);
    case Some(i) =>
      NextRecord(Component.Arena, bytes, cursor, i);
      var next := LogCursor(i + 1, cursor.lineNumber + 1);
      var text := TrimLineEnd(bytes[cursor.byteOffset..i + 1]);
      var line := Materialize(Component.Arena, next.lineNumber, cursor.byteOffset, text);
      if events && !MightEmitEvent(Component.Arena, text) {
        RejectedRecord(session, CoreOf(r), bytes, cursor.byteOffset, i);
        SeenFurther(r, cursor.byteOffset, i + 1);
        FoldIsReplay(session, r, bytes, next, events);
      } else {
        ConsumeIsStep(session, r, line);
        SeenFurther(Consume(session, r, line), cursor.byteOffset + 1, i + 1);
        FoldIsReplay(session, Consume(session, r, line), bytes, next, events);
        ConsumeAllCons(session, r, line,
          if events then PendingEvents(Component.Arena, bytes, next) else PendingLines(Component.Arena, bytes, next));
      }
  }

  // What a run boundary forgets.

  predicate SameConfiguration(a: ReducerState, b: ReducerState) {
    a.configuredSlots == b.configuredSlots && a.policy == b.policy
  }

  /** The run an event names. */
  function NamedBy(event: GameEvent): Option<string> {
    match event
    case ArenaRunStarted(id) => Some(id)
    case ArenaAuthoritativeResync(id, _, _, _) => Some(id)
    case ArenaDeckSnapshotStarted(id, _) => Some(id)
    case _ => None
  }

  function NameAfter(current: Option<string>, event: GameEvent): Option<string> {
    if NamedBy(event).Some? then NamedBy(event) else current
  }

  function RunName(s: ReducerState): Option<string> {
    s.snapshot.run.draftDeckId
  }

  /** An event leaves the configuration alone, and only a naming event changes which run this is. */
  ghost predicate Settles(s: ReducerState, event: GameEvent, r: ReducerState) {
    SameConfiguration(r, s) && RunName(r) == NameAfter(RunName(s), event)
  }

  lemma EntryKeepsConfiguration(s: ReducerState, phase: DraftPhase)
    ensures SameConfiguration(EnterOfferPhase(s, phase), s) && RunName(EnterOfferPhase(s, phase)) == RunName(s)
  {
    hide BeginRedraft;
  }

  lemma ModeKeepsConfiguration(s: ReducerState, mode: string)
    ensures SameConfiguration(DraftMode(s, mode), s) && RunName(DraftMode(s, mode)) == RunName(s)
  {
    hide EnterOfferPhase, SlotCount, DraftPhase.FromLog;
    var phase := DraftPhase.FromLog(mode);
    EntryKeepsConfiguration(s.(snapshot := s.snapshot.(
      mode := GameMode.Arena, run := s.snapshot.run.(draftMode := Some(mode), draftPhase := phase))), phase);
  }

  lemma RunRecordKeepsConfiguration(s: ReducerState, event: GameEvent)
    requires IsRunRecord(event)
    ensures Settles(s, event, Mutate(s, event))
  {
    hide HeroClass.OfHeroCard, BeginRedraft, AddCards, SlotCount, DraftPhase.FromLog, DraftMode, SnapshotCard,
      SnapshotCompleted, OpenedScreen, Resync, SnapshotStarted;
    match event
    case ArenaDraftMode(mode) => ModeKeepsConfiguration(s, mode);
    case ArenaDeckSnapshotCard(id) => SnapshotCardTouches(s, id);
    case ArenaDeckSnapshotCompleted => SnapshotCompletedTouches(s);
    case ArenaAuthoritativeResync(id, hero, ids, mode) => ResyncNames(s, id, hero, ids, mode);
    case ArenaDeckSnapshotStarted(id, hero) => SnapshotNames(s, id, hero);
    case ArenaRunStarted(_) =>
  }

  lemma ResyncNames(s: ReducerState, id: string, hero: Option<CardId>, ids: seq<CardId>, mode: Option<string>)
    ensures var r := Resync(s, id, hero, ids, mode); SameConfiguration(r, s) && RunName(r) == Some(id)
  {
    hide HeroClass.OfHeroCard, BeginRedraft, AddCards, SlotCount, DraftPhase.FromLog;
  }

  lemma SnapshotNames(s: ReducerState, id: string, hero: Option<CardId>)
    ensures var r := SnapshotStarted(s, id, hero); SameConfiguration(r, s) && RunName(r) == Some(id)
  {
    hide HeroClass.OfHeroCard;
  }

  lemma GameRecordKeepsConfiguration(s: ReducerState, event: GameEvent)
    requires IsGameRecord(event)
    ensures Settles(s, event, Mutate(s, event))
  {
    hide IsDeckExit, IsDeckEntry, RemoveOne;
  }

  lemma PlainRecordKeepsConfiguration(s: ReducerState, event: GameEvent)
    requires !IsRunRecord(event) && !IsGameRecord(event) && !IsDeckRecord(event) && !IsReviewRecord(event)
    ensures Settles(s, event, Mutate(s, event))
  {
    hide HeroClass.OfHeroCard, HeroClass.FromLog, GameMode.FromLog, AddCard, ValidItems, CardOffers, CountPick;
  }

  lemma DeckRecordKeepsConfiguration(s: ReducerState, event: GameEvent)
    requires IsDeckRecord(event)
    ensures Settles(s, event, Mutate(s, event))
  {
    hide Mutate;
    DeckRecordTouchesDeck(s, event);
  }

  lemma ReviewRecordKeepsConfiguration(s: ReducerState, event: GameEvent)
    requires IsReviewRecord(event)
    ensures Settles(s, event, Mutate(s, event))
  {
    hide Mutate;
    ReviewTouchesDraft(s, event);
  }

  lemma EventKeepsConfiguration(s: ReducerState, event: GameEvent)
    ensures Settles(s, event, Apply(s, event))
  {
    hide Mutate, DeckCards, PositiveCounts, DeckStateOf;
    if IsRunRecord(event) {
      RunRecordKeepsConfiguration(s, event);
    } else if IsGameRecord(event) {
      GameRecordKeepsConfiguration(s, event);
    } else if IsDeckRecord(event) {
      DeckRecordKeepsConfiguration(s, event);
    } else if IsReviewRecord(event) {
      ReviewRecordKeepsConfiguration(s, event);
    } else {
      PlainRecordKeepsConfiguration(s, event);
    }
  }

  function NameAfterAll(current: Option<string>, events: seq<GameEvent>): Option<string>
    decreases events
  {
    if events == [] then current else NameAfterAll(NameAfter(current, events[0]), events[1..])
  }

  lemma {:induction false} EventsKeepConfiguration(s: ReducerState, events: seq<GameEvent>)
    ensures SameConfiguration(ApplyAll(s, events), s)
    ensures RunName(ApplyAll(s, events)) == NameAfterAll(RunName(s), events)
    decreases events
  {
    hide Apply, NameAfter;
    if events != [] {
      EventKeepsConfiguration(s, events[0]);
      EventsKeepConfiguration(Apply(s, events[0]), events[1..]);
    }
  }

  /** The run named by an Arena line: a run start, or a snapshot header outside a pending Redraft boundary. */
  function LineNames(p: ParserState, line: ArenaLine): Option<string> {
    match line
    case RunBegin(id) => Some(id)
    case DraftDeck(id, _) => if p.redraftPending then None else Some(id)
    case _ => None
  }

  lemma ParsedName(p: ParserState, line: ArenaLine, current: Option<string>)
    ensures NameAfterAll(current, ParseArena(p, line).1)
         == if LineNames(p, line).Some? then LineNames(p, line) else current
  {
    var events := ParseArena(p, line).1;
    if |events| == 2 {
      assert events[1..] == [events[1]] && [events[1]][1..] == [];
      assert NameAfterAll(NameAfter(current, events[0]), [events[1]])
          == NameAfterAll(NameAfter(NameAfter(current, events[0]), events[1]), []);
    } else if |events| == 1 {
      assert events[1..] == [];
    }
  }

  lemma StepKeepsConfiguration(session: Session, k: Core, line: RawLogLine)
    requires line.component.Arena?
    ensures SameConfiguration(StepCore(session, k, line).reducer, k.reducer)
    ensures var named := LineNames(k.parser, ClassifyArena(line.message));
      RunName(StepCore(session, k, line).reducer) == if named.Some? then named else RunName(k.reducer)
  {
    hide Apply, ApplyAll, ParseArena, RecordEvents, ClassifyArena, LineNames, NameAfter;
    var parsed := Parse(k.parser, line);
    var source := SourceOf(session, line);
    var noted := k.reducer.(observations := RecordEvents(k.reducer.observations, source, parsed.1));
    EventsKeepConfiguration(noted, parsed.1);
    ParsedName(k.parser, ClassifyArena(line.message), RunName(k.reducer));
  }

  /** A run-start record makes everything but the configuration irrelevant. */
  lemma RunStartForgets(session: Session, a: Core, b: Core, line: RawLogLine)
    requires line.component.Arena? && ClassifyArena(line.message).RunBegin?
    requires SameConfiguration(a.reducer, b.reducer)
    ensures StepCore(session, a, line) == StepCore(session, b, line)
  {
    hide ClassifyArena, Sync;
    var id := ClassifyArena(line.message).id;
    var started := [ArenaRunStarted(id)];
    assert Parse(a.parser, line) == Parse(b.parser, line) == (FRESH_PARSER, started);
    forall s: ReducerState ensures ConsumeLine(s, SourceOf(session, line), started) == Sync(BeginRun(s, id)) {
      OneRunStart(s, SourceOf(session, line), id);
    }
    assert BeginRun(a.reducer, id) == BeginRun(b.reducer, id);
  }

  lemma OneRunStart(s: ReducerState, source: EventSource, id: string)
    ensures ConsumeLine(s, source, [ArenaRunStarted(id)]) == Sync(BeginRun(s, id))
  {
    hide Sync;
    var started := [ArenaRunStarted(id)];
    assert started[1..] == [];
    assert RecordEvents(s.observations, source, started) == s.observations;
    assert ApplyAll(s, started) == ApplyAll(Apply(s, started[0]), []);
  }

  lemma {:induction false} FoldKeepsConfiguration(session: Session, bytes: string, from: nat, k: Core)
    requires from <= |bytes|
    ensures SameConfiguration(FoldFrom(session, bytes, from, k).reducer, k.reducer)
    decreases |bytes| - from
  {
    hide StepCore, ArenaRecord, FoldFrom, SameConfiguration, NewlineFrom;
    FoldOne(session, bytes, from, k);
    match NewlineFrom(bytes, from)
    case None =>
      ConfigurationChains(k.reducer, k.reducer, k.reducer);
    case Some(i) =>
      var next := StepCore(session, k, ArenaRecord(bytes, from, i));
      StepKeepsSlots(session, bytes, from, i, k);
      FoldKeepsConfiguration(session, bytes, i + 1, next);
      ConfigurationChains(FoldFrom(session, bytes, i + 1, next).reducer, next.reducer, k.reducer);
  }

  lemma StepKeepsSlots(session: Session, bytes: string, from: nat, newline: nat, k: Core)
    requires from <= newline < |bytes|
    ensures SameConfiguration(StepCore(session, k, ArenaRecord(bytes, from, newline)).reducer, k.reducer)
  {
    hide StepCore, ArenaRecord, ClassifyArena, LineNames;
    ArenaRecordIsArena(bytes, from, newline);
    StepKeepsConfiguration(session, k, ArenaRecord(bytes, from, newline));
  }

  lemma ConfigurationChains(a: ReducerState, b: ReducerState, c: ReducerState)
    ensures SameConfiguration(c, c)
    ensures SameConfiguration(a, b) && SameConfiguration(b, c) ==> SameConfiguration(a, c)
  {
  }

  /** Folding passes through every record boundary. */
  lemma {:induction false} FoldPasses(session: Session, bytes: string, from: nat, start: nat, k: Core)
    requires from <= start <= |bytes| && IsBoundary(bytes, start)
    ensures FoldFrom(session, bytes, from, k)
         == FoldFrom(session, bytes, start, FoldFrom(session, bytes[..start], from, k))
    decreases start - from
  {
    hide StepCore, ArenaRecord, FoldFrom, NewlineFrom;
    var prefix := bytes[..start];
    FoldOne(session, prefix, from, k);
    if from < start {
      FoldOne(session, bytes, from, k);
      PrefixRecord(bytes, from, start);
      var i := NewlineFrom(bytes, from).value;
      FoldPasses(session, bytes, i + 1, start, StepCore(session, k, ArenaRecord(bytes, from, i)));
    } else {
      NothingFrom(prefix);
    }
  }

  lemma NothingFrom(bytes: string)
    ensures NewlineFrom(bytes, |bytes|) == None
  {
  }

  lemma {:induction false} NewlineBy(s: string, from: nat, at: nat)
    requires from <= at < |s| && s[at] == LF
    ensures NewlineFrom(s, from).Some? && NewlineFrom(s, from).value <= at
    decreases at - from
  {
    if s[from] != LF {
      NewlineBy(s, from + 1, at);
    }
  }

  /** A record before a boundary is a record of the text up to there. */
  lemma PrefixRecord(bytes: string, from: nat, start: nat)
    requires from < start <= |bytes| && IsBoundary(bytes, start)
    ensures var i := NewlineFrom(bytes, from);
      && i.Some? && i.value < start && NewlineFrom(bytes[..start], from) == i
      && ArenaRecord(bytes[..start], from, i.value) == ArenaRecord(bytes, from, i.value)
  {
    hide Materialize, TrimLineEnd;
    NewlineBy(bytes, from, start - 1);
    var i := NewlineFrom(bytes, from).value;
    assert bytes[..start][from..i] == bytes[from..i] && bytes[..start][from..i + 1] == bytes[from..i + 1];
    NewlineFromUnique(bytes[..start], from, i);
  }

  // The two ways of attaching.

  /** All complete lines from one offset on, as the tail attach reads them. */
  ghost function SuffixReplay(session: Session, slots: Option<U16>, bytes: string, start: nat): Replayed
    requires start <= |bytes|
  {
    ConsumeAll(session, FreshReplay(slots), PendingLines(Component.Arena, bytes, LogCursor(start, 0)))
  }

  function ArenaOnly(identity: nat, bytes: string): Files {
    map[Component.Arena := FileView(identity, bytes)]
  }

  /** The lines a complete-history attach to an Arena-only session consumes. */
  lemma ArenaLines(identity: nat, bytes: string)
    ensures Tailing.AttachedLines(ArenaOnly(identity, bytes)) == PendingEvents(Component.Arena, bytes, START_CURSOR)
  {
    hide Merge, PendingEvents;
    ComponentRanks();
    var files := ArenaOnly(identity, bytes);
    var lines := PendingEvents(Component.Arena, bytes, START_CURSOR);
    PendingTagged(files, map[]);
    assert PendingStreams(files, map[]) == Tailing.OneStream(Component.Arena, lines);
    forall line | line in lines ensures line.component == Component.Arena {
      assert lines == PendingStreams(files, map[])[Component.Arena.Rank()];
      assert COMPONENTS[line.component.Rank()] == line.component;
    }
    Tailing.OneStreamMerge(Component.Arena, lines);
  }

  lemma ArenaReplay(session: Session, slots: Option<U16>, identity: nat, bytes: string)
    ensures AttachFull(session, slots, ArenaOnly(identity, bytes)).Ok?
    ensures AttachFull(session, slots, ArenaOnly(identity, bytes)).value.replay
         == ConsumeAll(session, FreshReplay(slots), PendingEvents(Component.Arena, bytes, START_CURSOR))
  {
    hide ConsumeAll, PendingEvents, Drained, Tailing.AttachedLines, Witnesses, NextCursor, FreshReplay;
    var files := ArenaOnly(identity, bytes);
    assert Component.Arena in files;
    ArenaLines(identity, bytes);
    Tailing.AttachedLastOrder(session, slots, AttachFull(session, slots, files).value, files);
  }

  /** A record at this offset is a complete line that the parser takes for a run start. */
  predicate RunStartsAt(bytes: string, start: nat) {
    && IsBoundary(bytes, start) && NewlineFrom(bytes, start).Some?
    && ClassifyArena(ArenaRecord(bytes, start, NewlineFrom(bytes, start).value).message).RunBegin?
  }

  /** Replaying from a run start gives the parser and the reducer of the whole history; only the set of consumed
      sources is smaller. */
  lemma SuffixIsHistory(session: Session, slots: Option<U16>, identity: nat, bytes: string, start: nat)
    requires RunStartsAt(bytes, start)
    ensures AttachFull(session, slots, ArenaOnly(identity, bytes)).Ok?
    ensures CoreOf(SuffixReplay(session, slots, bytes, start))
         == CoreOf(AttachFull(session, slots, ArenaOnly(identity, bytes)).value.replay)
  {
    hide AttachFull, PendingEvents, PendingLines, ConsumeAll, StepCore, ClassifyArena, NewReducer;
    var fresh_ := FreshReplay(slots);
    ArenaReplay(session, slots, identity, bytes);
    FoldIsReplay(session, fresh_, bytes, START_CURSOR, true);
    FoldIsReplay(session, fresh_, bytes, LogCursor(start, 0), false);
    FoldPasses(session, bytes, 0, start, CoreOf(fresh_));
    FoldKeepsConfiguration(session, bytes[..start], 0, CoreOf(fresh_));
    var at := FoldFrom(session, bytes[..start], 0, CoreOf(fresh_));
    RunStartForgets(session, at, CoreOf(fresh_), ArenaRecord(bytes, start, NewlineFrom(bytes, start).value));
  }

  // Where the sentinels are.

  /** No occurrence of the sentinel starts at or after this offset. */
  ghost predicate NoneFrom(bytes: string, literal: string, from: nat) {
    forall i | from <= i :: !StartsAt(bytes, literal, i)
  }

  lemma NamingLineHasSentinel(message: string)
    ensures ClassifyArena(message).RunBegin? ==> Contains(message, ON_BEGIN)
    ensures ClassifyArena(message).DraftDeck? ==> Contains(message, DRAFT_DECK)
  {
    hide DraftDeckAt, RunBeginAt, RedraftBeginAt, HeroChosenAt, DeckContainsAt, ClientChoiceAt, ModeSetAt, StartsAt;
    PatternFound(message, DraftDeckAt, DRAFT_DECK);
    PatternFound(message, RunBeginAt, ON_BEGIN);
  }

  lemma RecordHolds(bytes: string, from: nat, newline: nat, literal: string)
    requires from <= newline < |bytes| && NoneFrom(bytes, literal, from)
    ensures !Contains(ArenaRecord(bytes, from, newline).message, literal)
  {
    hide SplitTimestamp, TrimLineEnd;
    var message := ArenaRecord(bytes, from, newline).message;
    var raw := TrimLineEnd(bytes[from..newline + 1]);
    var skipped := SplitTimestamp(raw).start;
    var first := from + skipped;
    assert raw == bytes[from..from + |raw|];
    assert message == bytes[first..first + |message|];
    forall i | 0 <= i <= |message| ensures !StartsAt(message, literal, i) {
      assert !StartsAt(bytes, literal, first + i);
      if i + |literal| <= |message| {
        SliceOfSlice(bytes, first, first + |message|, i, i + |literal|);
      }
    }
  }

  /** The line of the last occurrence is a record boundary, and no occurrence starts after its newline. */
  lemma LastLineIsRecord(bytes: string, literal: string)
    requires NaiveLastLine(bytes, literal).Some?
    ensures var m := NaiveLastLine(bytes, literal).value;
      && IsBoundary(bytes, m.lineStart)
      && (m.complete <==> NewlineFrom(bytes, m.lineStart).Some?)
      && (m.complete ==> NoneFrom(bytes, literal, NewlineFrom(bytes, m.lineStart).value + 1))
  {
    var at := LastOccurrence(bytes, literal, |bytes|).value;
    var start := LastLineEnd(bytes[..at]);
    assert bytes[start..at] == bytes[..at][start..];
    assert bytes[start..] == bytes[start..at] + bytes[at..];
    var newline := NewlineFrom(bytes, start);
    if newline.Some? {
      assert newline.value >= at;
    }
  }

  /** A line that starts no later than another complete line holds nothing after that line's newline. */
  lemma EarlierLine(bytes: string, literal: string, start: nat)
    requires IsBoundary(bytes, start) && NewlineFrom(bytes, start).Some?
    requires NaiveLastLine(bytes, literal).Some? ==> NaiveLastLine(bytes, literal).value.lineStart <= start
    ensures NoneFrom(bytes, literal, NewlineFrom(bytes, start).value + 1)
  {
    var newline := NewlineFrom(bytes, start).value;
    var last := LastOccurrence(bytes, literal, |bytes|);
    if last.Some? {
      var lineStart := LastLineEnd(bytes[..last.value]);
      assert bytes[lineStart..last.value] == bytes[..last.value][lineStart..];
      assert last.value <= newline;
    }
  }

  // Which run an Arena log ends in.

  /** With no run start and no snapshot header left, the run keeps its name. */
  lemma {:induction false} NoNamesLeft(session: Session, bytes: string, from: nat, k: Core)
    requires from <= |bytes| && NoneFrom(bytes, ON_BEGIN, from) && NoneFrom(bytes, DRAFT_DECK, from)
    ensures RunName(FoldFrom(session, bytes, from, k).reducer) == RunName(k.reducer)
    decreases |bytes| - from
  {
    hide StepCore, ClassifyArena, ArenaRecord, StartsAt, Contains;
    match NewlineFrom(bytes, from)
    case None =>
    case Some(i) =>
      var line := ArenaRecord(bytes, from, i);
      RecordHolds(bytes, from, i, ON_BEGIN);
      RecordHolds(bytes, from, i, DRAFT_DECK);
      NamingLineHasSentinel(line.message);
      ArenaRecordIsArena(bytes, from, i);
      StepKeepsConfiguration(session, k, line);
      NoNamesLeft(session, bytes, i + 1, StepCore(session, k, line));
  }

  lemma ArenaRecordIsArena(bytes: string, from: nat, newline: nat)
    requires from <= newline < |bytes|
    ensures ArenaRecord(bytes, from, newline).component.Arena?
  {
  }

  /** Some record from here on is a snapshot header that the parser accepts. */
  predicate HeaderFrom(bytes: string, from: nat, p: ParserState)
    requires from <= |bytes|
    decreases |bytes| - from
  {
    match NewlineFrom(bytes, from)
    case None => false
    case Some(i) =>
      var line := ArenaRecord(bytes, from, i);
      (ClassifyArena(line.message).DraftDeck? && !p.redraftPending) || HeaderFrom(bytes, i + 1, Parse(p, line).0)
  }

  lemma {:induction false} OnlyHeadersLeft(session: Session, bytes: string, from: nat, k: Core)
    requires from <= |bytes| && NoneFrom(bytes, ON_BEGIN, from)
    ensures RunName(FoldFrom(session, bytes, from, k).reducer).Some? <==>
              RunName(k.reducer).Some? || HeaderFrom(bytes, from, k.parser)
    decreases |bytes| - from
  {
    hide ClassifyArena, ArenaRecord, StartsAt, Contains, ConsumeLine, Parse;
    match NewlineFrom(bytes, from)
    case None =>
    case Some(i) =>
      var line := ArenaRecord(bytes, from, i);
      RecordHolds(bytes, from, i, ON_BEGIN);
      NamingLineHasSentinel(line.message);
      ArenaRecordIsArena(bytes, from, i);
      StepKeepsConfiguration(session, k, line);
      OnlyHeadersLeft(session, bytes, i + 1, StepCore(session, k, line));
  }

  /** The test by which a tail attach accepts a replayed run suffix. */
  ghost predicate RunAccepted(session: Session, slots: Option<U16>, bytes: string, start: nat)
    requires start <= |bytes|
  {
    RunName(SuffixReplay(session, slots, bytes, start).reducer.state).Some?
  }

  lemma FreshCore(slots: Option<U16>)
    ensures CoreOf(FreshReplay(slots)) == Core(FRESH_PARSER, NewReducer(slots)) && RunName(NewReducer(slots)).None?
    ensures NewReducer(slots).snapshot.draft == EMPTY_DRAFT
  {
    hide DeckCards, DeckStateOf;
  }

  /** The first record of a suffix names the run, or a later header does. */
  lemma SuffixName(session: Session, bytes: string, start: nat, k: Core)
    requires start <= |bytes| && NewlineFrom(bytes, start).Some? && RunName(k.reducer).None?
    requires NoneFrom(bytes, ON_BEGIN, NewlineFrom(bytes, start).value + 1)
    ensures var first := ClassifyArena(ArenaRecord(bytes, start, NewlineFrom(bytes, start).value).message);
      RunName(FoldFrom(session, bytes, start, k).reducer).Some? <==> first.RunBegin? || HeaderFrom(bytes, start, k.parser)
  {
    hide ClassifyArena, ArenaRecord, NoneFrom, ConsumeLine, Parse;
    var i := NewlineFrom(bytes, start).value;
    var line := ArenaRecord(bytes, start, i);
    ArenaRecordIsArena(bytes, start, i);
    StepKeepsConfiguration(session, k, line);
    OnlyHeadersLeft(session, bytes, i + 1, StepCore(session, k, line));
  }

  /** The suffix from the last complete line that mentions the run-start sentinel is accepted if and only if that
      line really starts a run, or a snapshot header follows. */
  lemma RunAcceptedIff(session: Session, slots: Option<U16>, bytes: string)
    requires NaiveLastLine(bytes, ON_BEGIN).Some? && NaiveLastLine(bytes, ON_BEGIN).value.complete
    ensures var start := NaiveLastLine(bytes, ON_BEGIN).value.lineStart;
      && start <= |bytes|
      && (RunAccepted(session, slots, bytes, start) <==>
            RunStartsAt(bytes, start) || HeaderFrom(bytes, start, FRESH_PARSER))
  {
    hide ClassifyArena, ArenaRecord, NoneFrom, HeaderFrom, FoldFrom, ConsumeAll, PendingLines, NewReducer, NaiveLastLine,
      NewlineFrom;
    LastLineIsRecord(bytes, ON_BEGIN);
    var start := NaiveLastLine(bytes, ON_BEGIN).value.lineStart;
    FreshCore(slots);
    FoldIsReplay(session, FreshReplay(slots), bytes, LogCursor(start, 0), false);
    SuffixName(session, bytes, start, Core(FRESH_PARSER, NewReducer(slots)));
  }

  /** When the last sentinel line really starts a run, the suffix is accepted and is the whole history. */
  lemma AcceptedSuffixIsHistory(session: Session, slots: Option<U16>, identity: nat, bytes: string)
    requires NaiveLastLine(bytes, ON_BEGIN).Some? && NaiveLastLine(bytes, ON_BEGIN).value.complete
    requires RunStartsAt(bytes, NaiveLastLine(bytes, ON_BEGIN).value.lineStart)
    ensures var start := NaiveLastLine(bytes, ON_BEGIN).value.lineStart;
      var history := AttachFull(session, slots, ArenaOnly(identity, bytes));
      && RunAccepted(session, slots, bytes, start)
      && history.Ok? && CoreOf(SuffixReplay(session, slots, bytes, start)) == CoreOf(history.value.replay)
  {
    hide AttachFull, SuffixReplay, RunStartsAt, NaiveLastLine, HeaderFrom, RunAccepted;
    RunAcceptedIff(session, slots, bytes);
    SuffixIsHistory(session, slots, identity, bytes, NaiveLastLine(bytes, ON_BEGIN).value.lineStart);
  }

  // A coincidental mention of the sentinel, accepted because of a later header.

  lemma Absent(s: string, literal: string)
    requires literal != "" && forall i: nat | i + |literal| <= |s| :: s[i] != literal[0]
    ensures !Contains(s, literal)
  {
    forall i | 0 <= i <= |s| ensures !StartsAt(s, literal, i) {
      assert i + |literal| <= |s| ==> s[i..i + |literal|][0] == s[i];
    }
  }

  lemma AbsentPattern(message: string, matcher: Matcher<ArenaLine>, literal: string)
    requires literal != "" && forall i: nat | i + |literal| <= |message| :: message[i] != literal[0]
    requires forall s, i :: matcher(s, i).Some? ==> StartsAt(s, literal, i)
    ensures FirstMatch(message, 0, matcher).None?
  {
    Absent(message, literal);
    PatternFound(message, matcher, literal);
  }

  lemma MentionLine()
    ensures ClassifyArena("OnBegin") == ArenaLine.Other
  {
    var message := "OnBegin";
    AbsentPattern(message, DraftDeckAt, DRAFT_DECK);
    AbsentPattern(message, RedraftBeginAt, ON_REDRAFT_BEGIN);
    AbsentPattern(message, HeroChosenAt, ON_CHOSEN);
    AbsentPattern(message, DeckContainsAt, DRAFT_CARD);
    AbsentPattern(message, ClientChoiceAt, CLIENT_CHOOSES);
    AbsentPattern(message, ModeSetAt, SET_DRAFT_MODE);
    hide DraftDeckAt, RedraftBeginAt, HeroChosenAt, DeckContainsAt, ClientChoiceAt, ModeSetAt;
    assert SkipSpaces(message, 7) == 7 && !StartsAt(message, "-", 7);
    forall i ensures RunBeginAt(message, i).None? {
    }
  }

  function Header(digit: char): string {
    DRAFT_DECK + [digit]
  }

  lemma HeaderLine(digit: char)
    requires IsDigit(digit)
    ensures ClassifyArena(Header(digit)) == DraftDeck([digit], None)
  {
    hide RunBeginAt, RedraftBeginAt, HeroChosenAt, DeckContainsAt, ClientChoiceAt, ModeSetAt;
    var message := Header(digit);
    assert StartsAt(message, DRAFT_DECK, 0);
    assert SkipSpaces(message, 14) == 14 && RunEnd(message, 14, IsDigit) == 15;
    assert HeroAfter(message, 15).None?;
    assert message[14..15] == [digit];
  }

  lemma NoStamp(raw: string)
    requires |raw| > 1 && !IsDigit(raw[0]) && !IsSpace(raw[1])
    ensures SplitTimestamp(raw) == Stamp(None, 0)
  {
    hide Number, TwoDigits, Literal;
    assert RunEnd(raw, 0, IsDigit) == 0;
  }

  lemma PlainText(text: string, at: nat)
    requires PlainLine(text)
    ensures Materialize(Component.Arena, 0, at, TrimLineEnd(text + [LF])).message == text
  {
    hide SplitTimestamp;
    assert (text + [LF])[..|text|] == text;
    assert text[|text| - 1] in text;
    assert TrimLineEnd(text + [LF]) == TrimLineEnd(text) == text;
    NoStamp(text);
  }

  /** A line without line endings or timestamp is the message of its record. */
  lemma RecordIs(file: string, from: nat, to: nat, text: string)
    requires PlainLine(text)
    requires from <= to < |file| && file[from..to] == text && file[to] == LF && file[from..to + 1] == text + [LF]
    ensures NewlineFrom(file, from) == Some(to) && ArenaRecord(file, from, to).message == text
  {
    hide Materialize, NewlineFrom, TrimLineEnd;
    PlainText(text, from);
    NewlineFromUnique(file, from, to);
  }

  const MENTION: string := "OnBegin"

  /** A snapshot header, a line that mentions the sentinel but starts no run, and the header of another run. */
  const COINCIDENCE: string := Header('5') + [LF] + MENTION + [LF] + Header('7') + [LF]

  /** A text without line endings that is not mistaken for a timestamp. */
  predicate PlainLine(text: string) {
    |text| > 1 && LF !in text && CR !in text && !IsDigit(text[0]) && !IsSpace(text[1])
  }

  lemma PlainTexts(digit: char)
    requires IsDigit(digit)
    ensures PlainLine(Header(digit)) && |Header(digit)| == 15 && PlainLine(MENTION) && |MENTION| == 7
  {
  }

  /** The log as three lines. */
  lemma CoincidenceLines()
    ensures |COINCIDENCE| == 40
    ensures COINCIDENCE[0..15] == Header('5') && COINCIDENCE[15] == LF && COINCIDENCE[0..16] == Header('5') + [LF]
    ensures COINCIDENCE[16..23] == MENTION && COINCIDENCE[23] == LF && COINCIDENCE[16..24] == MENTION + [LF]
    ensures COINCIDENCE[24..39] == Header('7') && COINCIDENCE[39] == LF && COINCIDENCE[24..40] == Header('7') + [LF]
  {
    hide Header;
    PlainTexts('5');
    PlainTexts('7');
  }

  lemma CoincidenceRecords()
    ensures |COINCIDENCE| == 40 && IsBoundary(COINCIDENCE, 16) && IsBoundary(COINCIDENCE, 24)
    ensures NewlineFrom(COINCIDENCE, 0) == Some(15) && NewlineFrom(COINCIDENCE, 16) == Some(23)
    ensures NewlineFrom(COINCIDENCE, 24) == Some(39) && NewlineFrom(COINCIDENCE, 40) == None
    ensures ArenaRecord(COINCIDENCE, 0, 15).message == Header('5')
    ensures ArenaRecord(COINCIDENCE, 16, 23).message == MENTION
    ensures ArenaRecord(COINCIDENCE, 24, 39).message == Header('7')
  {
    hide ArenaRecord, NewlineFrom, Header, PlainLine;
    PlainTexts('5');
    PlainTexts('7');
    CoincidenceLines();
    RecordIs(COINCIDENCE, 0, 15, Header('5'));
    RecordIs(COINCIDENCE, 16, 23, MENTION);
    RecordIs(COINCIDENCE, 24, 39, Header('7'));
    NoNewlineLeft();
  }

  lemma NoNewlineLeft()
    ensures |COINCIDENCE| == 40 && NewlineFrom(COINCIDENCE, 40) == None
  {
  }

  lemma NoLaterMention()
    ensures forall i | 16 < i <= 40 :: !StartsAt(COINCIDENCE, ON_BEGIN, i)
  {
    assert forall i | 16 < i < 40 :: COINCIDENCE[i] != 'O';
    forall i | 16 < i <= 40 ensures !StartsAt(COINCIDENCE, ON_BEGIN, i) {
      assert i + 7 <= 40 ==> COINCIDENCE[i..i + 7][0] == COINCIDENCE[i];
    }
  }

  /** The newest mention of the sentinel is the middle line. */
  lemma CoincidenceMarker()
    ensures NaiveLastLine(COINCIDENCE, ON_BEGIN) == Some(LineMatch(16, true))
  {
    hide LastLineEnd, LastOccurrence, Header;
    CoincidenceLines();
    NoLaterMention();
    LastOccurrenceUnique(COINCIDENCE, ON_BEGIN, 40, 16);
    assert COINCIDENCE[..16][16..] == [];
    LastLineEndUnique(COINCIDENCE[..16], 16);
    assert COINCIDENCE[16..][7] == COINCIDENCE[23];
  }

  lemma HeaderStep(session: Session, k: Core, line: RawLogLine, digit: char)
    requires IsDigit(digit) && line.component.Arena? && line.message == Header(digit) && !k.parser.redraftPending
    ensures StepCore(session, k, line) == Core(
      k.parser.(readingDeck := true, picksEnabled := false), Sync(SnapshotStarted(k.reducer, [digit], None)))
  {
    hide Sync, SnapshotStarted, ClassifyArena;
    HeaderLine(digit);
    var event := ArenaDeckSnapshotStarted([digit], None);
    var source := SourceOf(session, line);
    assert RecordEvents(k.reducer.observations, source, [event]) == k.reducer.observations by {
      assert [event][1..] == [];
    }
    assert ApplyAll(k.reducer, [event]) == ApplyAll(Apply(k.reducer, event), []);
  }

  lemma MentionStep(session: Session, k: Core, line: RawLogLine)
    requires line.component.Arena? && line.message == MENTION
    ensures StepCore(session, k, line) == k
  {
    hide ClassifyArena;
    MentionLine();
  }

  /** The middle line starts no run, yet the suffix is accepted, and what it knows is not what the history says:
      the history recorded a change of run. */
  lemma CoincidentalSuffix(session: Session, slots: Option<U16>)
    ensures NaiveLastLine(COINCIDENCE, ON_BEGIN) == Some(LineMatch(16, true)) && |COINCIDENCE| == 40
    ensures !RunStartsAt(COINCIDENCE, 16) && RunAccepted(session, slots, COINCIDENCE, 16)
    ensures var history := AttachFull(session, slots, ArenaOnly(0, COINCIDENCE));
      && history.Ok?
      && history.value.replay.reducer.state.snapshot.draft.exactPhaseProgress
      && !SuffixReplay(session, slots, COINCIDENCE, 16).reducer.state.snapshot.draft.exactPhaseProgress
  {
    hide NaiveLastLine, ClassifyArena, ArenaRecord, StepCore, AttachFull, ConsumeAll, PendingLines, PendingEvents;
    CoincidenceMarker();
    CoincidenceRecords();
    MentionLine();
    ArenaReplay(session, slots, 0, COINCIDENCE);
    FoldIsReplay(session, FreshReplay(slots), COINCIDENCE, START_CURSOR, true);
    FoldIsReplay(session, FreshReplay(slots), COINCIDENCE, LogCursor(16, 0), false);
    FreshCore(slots);
    CoincidenceFolds(session, slots);
  }

  lemma CoincidenceFolds(session: Session, slots: Option<U16>)
    ensures |COINCIDENCE| == 40
    ensures var start := Core(FRESH_PARSER, NewReducer(slots));
      var all, suffix := FoldFrom(session, COINCIDENCE, 0, start), FoldFrom(session, COINCIDENCE, 16, start);
      && RunName(suffix.reducer).Some?
      && all.reducer.snapshot.draft.exactPhaseProgress && !suffix.reducer.snapshot.draft.exactPhaseProgress
  {
    hide ArenaRecord, StepCore, NewReducer, DeckCards, DeckStateOf, NewlineFrom, FoldFrom;
    CoincidenceRecords();
    FreshCore(slots);
    var start := Core(FRESH_PARSER, NewReducer(slots));
    var mention, header := ArenaRecord(COINCIDENCE, 16, 23), ArenaRecord(COINCIDENCE, 24, 39);
    ArenaRecordIsArena(COINCIDENCE, 0, 15);
    ArenaRecordIsArena(COINCIDENCE, 16, 23);
    ArenaRecordIsArena(COINCIDENCE, 24, 39);
    HeaderStep(session, start, ArenaRecord(COINCIDENCE, 0, 15), '5');
    var first := StepCore(session, start, ArenaRecord(COINCIDENCE, 0, 15));
    MentionStep(session, start, mention);
    MentionStep(session, first, mention);
    HeaderStep(session, start, header, '7');
    HeaderStep(session, first, header, '7');
    FoldOne(session, COINCIDENCE, 0, start);
    FoldOne(session, COINCIDENCE, 16, start);
    FoldOne(session, COINCIDENCE, 16, first);
    FoldOne(session, COINCIDENCE, 24, start);
    FoldOne(session, COINCIDENCE, 24, first);
    FoldOne(session, COINCIDENCE, 40, StepCore(session, start, header));
    FoldOne(session, COINCIDENCE, 40, StepCore(session, first, header));
  }

  lemma FoldOne(session: Session, bytes: string, from: nat, k: Core)
    requires from <= |bytes|
    ensures FoldFrom(session, bytes, from, k) == match NewlineFrom(bytes, from)
      case None => k
      case Some(i) => FoldFrom(session, bytes, i + 1, StepCore(session, k, ArenaRecord(bytes, from, i)))
  {
    hide StepCore, ArenaRecord;
  }
}
