/** The sources an observer records are all of its own session, so its checkpoint is accepted if and only if the session
    has a name or nothing has been recorded. */
module SessionProvenance {
  import opened Prelude
  import opened Text
  import opened ArenaState
  import opened ReducerSpec
  import opened ReducerFrames
  import opened ReducerCheckpoint
  import opened LineGrammar
  import opened LogParser
  import opened ObserverSpec
  import opened WarmRestart

  /** An event keeps what was recorded or forgets all of it. */
  predicate KeepsOrForgets(s: ReducerState, r: ReducerState) {
    r.observations == s.observations || r.observations == map[]
  }

  lemma RunRecordForgets(s: ReducerState, event: GameEvent)
    requires IsRunRecord(event)
    ensures KeepsOrForgets(s, Mutate(s, event))
  {
    hide DraftMode, Resync, SnapshotStarted, SnapshotCard, SnapshotCompleted;
    match event
    case ArenaRunStarted(_) =>
    case ArenaAuthoritativeResync(id, hero, ids, mode) => ResyncTables(s, id, hero, ids, mode);
    case ArenaDeckSnapshotStarted(id, hero) => SnapshotStartedTables(s, id, hero);
    case ArenaDeckSnapshotCard(id) => SnapshotCardTouches(s, id);
    case ArenaDeckSnapshotCompleted => SnapshotCompletedTouches(s);
    case ArenaDraftMode(mode) => DraftModeTables(s, mode);
  }

  lemma GameRecordForgetsNothing(s: ReducerState, event: GameEvent)
    requires IsGameRecord(event)
    ensures KeepsOrForgets(s, Mutate(s, event))
  {
    hide SlotCount, IsDeckExit, IsDeckEntry, RemoveOne;
  }

  lemma ScreenRecordForgetsNothing(s: ReducerState, event: GameEvent)
    requires !IsRunRecord(event) && !IsGameRecord(event) && !IsDeckRecord(event) && !IsReviewRecord(event)
    ensures KeepsOrForgets(s, Mutate(s, event))
  {
    hide Pick, HeroClass.OfHeroCard, HeroClass.FromLog, GameMode.FromLog, ValidItems, CardOffers;
    match event
    case ArenaPick(id) => PickTouches(s, id);
    case _ =>
  }

  lemma EventKeepsOrForgets(s: ReducerState, event: GameEvent)
    ensures KeepsOrForgets(s, Apply(s, event))
  {
    hide Mutate, DeckCards, PositiveCounts, DeckStateOf;
    if IsRunRecord(event) {
      RunRecordForgets(s, event);
    } else if IsGameRecord(event) {
      GameRecordForgetsNothing(s, event);
    } else if IsDeckRecord(event) {
      DeckRecordTouchesDeck(s, event);
    } else if IsReviewRecord(event) {
      ReviewTouchesDraft(s, event);
    } else {
      ScreenRecordForgetsNothing(s, event);
    }
  }

  /** Recorded by this session: at least one source for every card, each of one of its log files. */
  predicate OfSession(session: Session, table: Observations) {
    forall id | id in table ::
      table[id] != [] && forall source | source in table[id] :: IsLogSource(session, source)
  }

  predicate IsLogSource(session: Session, source: EventSource) {
    source.sessionId == session.id && source.component in FILENAMES
  }

  const FILENAMES: set<string> :=
    {"LoadingScreen.log", "Power.log", "Zone.log", "Arena.log", "Asset.log"}

  lemma FilenamesAreNames(name: string)
    requires name in FILENAMES
    ensures Trim(name) != ""
  {
    assert TrimStart(name) == name && TrimEnd(name) == name;
  }

  lemma {:induction false} RecordCardsOfSession(
    session: Session, table: Observations, source: EventSource, ids: seq<CardId>)
    requires OfSession(session, table) && IsLogSource(session, source)
    ensures OfSession(session, RecordCards(table, source, ids))
    decreases ids
  {
    hide IsLogSource, IsRealCardId;
    if ids != [] {
      RecordCardsOfSession(session, RecordCard(table, source, ids[0]), source, ids[1..]);
    }
  }

  lemma {:induction false} RecordEventsOfSession(
    session: Session, table: Observations, source: EventSource, events: seq<GameEvent>)
    requires OfSession(session, table) && IsLogSource(session, source)
    ensures OfSession(session, RecordEvents(table, source, events))
    decreases events
  {
    hide OfSession, IsLogSource, RecordCards, ObservedCards;
    if events != [] {
      RecordCardsOfSession(session, table, source, ObservedCards(events[0]));
      RecordEventsOfSession(session, RecordCards(table, source, ObservedCards(events[0])), source, events[1..]);
    }
  }

  lemma NothingOfSession(session: Session)
    ensures OfSession(session, map[])
  {
  }

  lemma {:induction false} EventsKeepSession(session: Session, s: ReducerState, events: seq<GameEvent>)
    requires OfSession(session, s.observations)
    ensures OfSession(session, ApplyAll(s, events).observations)
    decreases events
  {
    hide OfSession, ReducerSpec.Apply;
    if events != [] {
      EventKeepsOrForgets(s, events[0]);
      NothingOfSession(session);
      EventsKeepSession(session, Apply(s, events[0]), events[1..]);
    }
  }

  lemma SourceIsOfSession(session: Session, line: RawLogLine)
    ensures IsLogSource(session, SourceOf(session, line))
  {
  }

  lemma {:induction false} LinesKeepSession(session: Session, r: Replayed, lines: seq<RawLogLine>)
    requires OfSession(session, r.reducer.state.observations)
    ensures OfSession(session, ConsumeAll(session, r, lines).reducer.state.observations)
    decreases lines
  {
    hide OfSession, IsLogSource, Parse, ApplyAll, RecordEvents, SourceOf;
    if lines != [] {
      var source, events := SourceOf(session, lines[0]), Parse(r.parser, lines[0]).1;
      var s := r.reducer.state;
      SourceIsOfSession(session, lines[0]);
      RecordEventsOfSession(session, s.observations, source, events);
      EventsKeepSession(session, s.(observations := RecordEvents(s.observations, source, events)), events);
      LinesKeepSession(session, Consume(session, r, lines[0]), lines[1..]);
    }
  }

  lemma {:induction false} PollsKeepSession(session: Session, o: Observed, history: seq<Files>)
    requires OfSession(session, o.replay.reducer.state.observations) && PollRun(session, o, history).Ok?
    ensures OfSession(session, PollRun(session, o, history).value.replay.reducer.state.observations)
    decreases history
  {
    hide FirstFault, ConsumeAll, AdvancedCursors, Witnesses, InOrder, PendingMerged, OfSession;
    if history != [] {
      NoFaultFits(o, history[0]);
      LinesKeepSession(session, o.replay, PendingMerged(history[0], o.cursors));
      PollsKeepSession(session, Poll(session, o, history[0]).value, history[1..]);
    }
  }

  lemma AttachOfSession(session: Session, slots: Option<U16>, files: Files)
    requires files != map[]
    ensures OfSession(session, AttachFull(session, slots, files).value.replay.reducer.state.observations)
  {
    hide ConsumeAll, PendingMerged, AdvancedCursors, Witnesses, OfSession, DeckCards, DeckStateOf;
    NothingOfSession(session);
    assert CursorsFit(files, map[]);
    LinesKeepSession(session, FreshReplay(slots), PendingMerged(files, map[]));
  }

  /** Sources of a session are named if and only if the session is, unless there is none. */
  lemma NamedIff(session: Session, table: Observations)
    requires OfSession(session, table)
    ensures NamedProvenance(table) <==> Trim(session.id) != "" || table == map[]
  {
    hide Trim;
    forall name | name in FILENAMES ensures Trim(name) != "" {
      FilenamesAreNames(name);
    }
    if table != map[] {
      var id :| id in table;
      assert table[id][0] in table[id];
    }
  }
}
