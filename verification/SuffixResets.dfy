/** When a suffix of an Arena log tells as much as all of it: when the run is reset inside the suffix. */
module SuffixResets {
  import opened Prelude
  import opened ArenaState
  import opened ReducerSpec
  import opened ReducerFrames
  import opened LogRecords
  import opened ReverseSearch
  import opened LineGrammar
  import opened LogParser
  import opened LogReader
  import opened ObserverSpec
  import opened TailRun
  import TailAttach
  import TailPolls

  /** The line begins another run: a run start, or an accepted header of a deck other than the current one. */
  predicate ResetsRun(p: ParserState, name: Option<string>, line: ArenaLine) {
    match line
    case RunBegin(_) => true
    case DraftDeck(id, _) => !p.redraftPending && name.Some? && name.value != id
    case _ => false
  }

  function NameAfterLine(p: ParserState, name: Option<string>, line: ArenaLine): Option<string> {
    if LineNames(p, line).Some? then LineNames(p, line) else name
  }

  /** Some line from here on begins another run. */
  predicate Resets(bytes: string, from: nat, p: ParserState, name: Option<string>)
    requires from <= |bytes|
    decreases |bytes| - from
  {
    match NewlineFrom(bytes, from)
    case None => false
    case Some(i) =>
      var line := ClassifyArena(ArenaRecord(bytes, from, i).message);
      ResetsRun(p, name, line) || Resets(bytes, i + 1, ParseArena(p, line).0, NameAfterLine(p, name, line))
  }

  /** Some line of the log begins another run: a real run start, or a change of deck. */
  predicate ResetSomewhere(bytes: string) {
    Resets(bytes, 0, FRESH_PARSER, None)
  }

  /** The lines from here on begin another run, read on their own. */
  predicate ResetAfter(bytes: string, start: nat)
    requires start <= |bytes|
  {
    Resets(bytes, start, FRESH_PARSER, None)
  }

  /** The parser flags after all complete lines. */
  function FlagsAfter(bytes: string, from: nat, p: ParserState): ParserState
    requires from <= |bytes|
    decreases |bytes| - from
  {
    match NewlineFrom(bytes, from)
    case None => p
    case Some(i) => FlagsAfter(bytes, i + 1, ParseArena(p, ClassifyArena(ArenaRecord(bytes, from, i).message)).0)
  }

  /** A Redraft boundary is pending where the suffix begins. */
  predicate PendingAt(bytes: string, start: nat)
    requires start <= |bytes|
  {
    FlagsAfter(bytes[..start], 0, FRESH_PARSER).redraftPending
  }

  // What a reset does to the history status.

  predicate IsArenaEvent(event: GameEvent) {
    || event.ArenaRunStarted? || event.ArenaDeckSnapshotStarted? || event.ArenaDeckSnapshotCard?
    || event.ArenaDeckSnapshotCompleted? || event.ArenaDraftMode? || event.HeroCard? || event.ArenaPick?
  }

  function Status(s: ReducerState): HistoryStatus { s.snapshot.draft.historyStatus }

  function StatusAfter(s: ReducerState, event: GameEvent): HistoryStatus {
    match event
    case ArenaRunStarted(_) => HistoryStatus.Complete
    case ArenaDeckSnapshotStarted(id, _) =>
      if RunName(s).Some? && RunName(s).value != id then HistoryStatus.Complete else Status(s)
    case _ => Status(s)
  }

  lemma ModeKeepsStatus(s: ReducerState, mode: string)
    ensures Status(DraftMode(s, mode)) == Status(s)
  {
    hide EnterOfferPhase, DeckEditorClosed, SlotCount, DraftPhase.FromLog;
    var phase := DraftPhase.FromLog(mode);
    var noted := s.(snapshot := s.snapshot.(
      mode := GameMode.Arena, run := s.snapshot.run.(draftMode := Some(mode), draftPhase := phase)));
    var previous := s.snapshot.run.draftPhase;
    EntryKeepsStatus(noted, phase);
    EditorKeepsStatus(noted, previous);
    EditorKeepsStatus(EnterOfferPhase(noted, phase), previous);
  }

  lemma EntryKeepsStatus(s: ReducerState, phase: DraftPhase)
    ensures Status(EnterOfferPhase(s, phase)) == Status(s)
  {
    hide BeginRedraft;
  }

  lemma EditorKeepsStatus(s: ReducerState, previous: DraftPhase)
    ensures Status(DeckEditorClosed(s, previous)) == Status(s)
  {
    hide SlotCount;
  }

  lemma SnapshotStatus(s: ReducerState, id: string, hero: Option<CardId>)
    ensures Status(SnapshotStarted(s, id, hero)) == StatusAfter(s, ArenaDeckSnapshotStarted(id, hero))
  {
    hide HeroClass.OfHeroCard;
  }

  lemma EventStatus(s: ReducerState, event: GameEvent)
    requires IsArenaEvent(event)
    ensures Status(Apply(s, event)) == StatusAfter(s, event)
  {
    hide DeckCards, PositiveCounts, DeckStateOf, DraftMode, SnapshotStarted, SnapshotCard, SnapshotCompleted, Pick,
      HeroClass.OfHeroCard, CountPick;
    match event
    case ArenaDraftMode(mode) => ModeKeepsStatus(s, mode);
    case ArenaDeckSnapshotStarted(id, hero) => SnapshotStatus(s, id, hero);
    case ArenaDeckSnapshotCard(id) => SnapshotCardTouches(s, id);
    case ArenaDeckSnapshotCompleted => SnapshotCompletedTouches(s);
    case ArenaPick(id) =>
      PickTouches(s, id);
      CountKeepsStatus(s.snapshot.draft.(selected := Some(id), selections := s.snapshot.draft.selections + [id]),
                       s.snapshot.run.draftPhase);
    case ArenaRunStarted(_) =>
    case HeroCard(_) =>
  }

  lemma CountKeepsStatus(draft: DraftState, phase: DraftPhase)
    ensures CountPick(draft, phase).historyStatus == draft.historyStatus
  {
  }

  lemma ApplyTwo(s: ReducerState, a: GameEvent, b: GameEvent)
    ensures ApplyAll(s, [a]) == Apply(s, a) && ApplyAll(s, [a, b]) == Apply(Apply(s, a), b)
  {
    hide ReducerSpec.Apply;
    assert [a, b][1..] == [b];
    assert ApplyAll(s, [a]) == ApplyAll(Apply(s, a), []);
    assert ApplyAll(Apply(s, a), [b]) == ApplyAll(Apply(Apply(s, a), b), []);
  }

  lemma StepStatus(session: Session, k: Core, line: RawLogLine)
    requires line.component.Arena?
    ensures var after := StepCore(session, k, line);
      && after.parser == ParseArena(k.parser, ClassifyArena(line.message)).0
      && Status(after.reducer)
           == if ResetsRun(k.parser, RunName(k.reducer), ClassifyArena(line.message)) then HistoryStatus.Complete
              else Status(k.reducer)
  {
    hide ClassifyArena, ReducerSpec.Apply, ApplyAll, RecordEvents, IsRealCardId;
    var events := Parse(k.parser, line).1;
    var noted := k.reducer.(observations := RecordEvents(k.reducer.observations, SourceOf(session, line), events));
    if |events| == 1 {
      assert events == [events[0]];
      ApplyTwo(noted, events[0], events[0]);
      EventStatus(noted, events[0]);
    } else if |events| == 2 {
      assert events == [events[0], events[1]];
      ApplyTwo(noted, events[0], events[1]);
      EventStatus(noted, events[0]);
      EventStatus(Apply(noted, events[0]), events[1]);
    }
  }

  lemma {:induction false} FoldStatus(session: Session, bytes: string, from: nat, k: Core)
    requires from <= |bytes|
    ensures var after := FoldFrom(session, bytes, from, k);
      && after.parser == FlagsAfter(bytes, from, k.parser)
      && Status(after.reducer)
           == if Resets(bytes, from, k.parser, RunName(k.reducer)) then HistoryStatus.Complete else Status(k.reducer)
    decreases |bytes| - from
  {
    hide ClassifyArena, ArenaRecord, StepCore, ParseArena, ResetsRun, FoldFrom;
    FoldOne(session, bytes, from, k);
    match NewlineFrom(bytes, from)
    case None =>
    case Some(i) =>
      var line := ArenaRecord(bytes, from, i);
      var next := StepCore(session, k, line);
      ArenaRecordIsArena(bytes, from, i);
      StepStatus(session, k, line);
      StepKeepsConfiguration(session, k, line);
      FoldStatus(session, bytes, i + 1, next);
  }

  // Two readings of the same lines.

  /** One reading began later, and has not read more than the other: same configuration, same pending boundary, and
      once it knows a run, the same run and the same flags. */
  predicate InStep(late: Core, early: Core) {
    && SameConfiguration(late.reducer, early.reducer)
    && late.parser.redraftPending == early.parser.redraftPending
    && (RunName(late.reducer).Some? ==> RunName(early.reducer) == RunName(late.reducer) && early.parser == late.parser)
  }

  lemma ParsersInStep(p: ParserState, q: ParserState, line: ArenaLine)
    requires p.redraftPending == q.redraftPending
    ensures var a, b := ParseArena(p, line).0, ParseArena(q, line).0;
      && a.redraftPending == b.redraftPending && LineNames(p, line) == LineNames(q, line)
      && (p == q || LineNames(p, line).Some? ==> a == b)
  {
    hide IsRealCardId;
  }

  lemma StepInStep(session: Session, late: Core, early: Core, line: RawLogLine)
    requires InStep(late, early) && line.component.Arena?
    ensures InStep(StepCore(session, late, line), StepCore(session, early, line))
  {
    hide ClassifyArena, StepCore, ParseArena, LineNames;
    var parsed := ClassifyArena(line.message);
    StepKeepsConfiguration(session, late, line);
    StepKeepsConfiguration(session, early, line);
    StepStatus(session, late, line);
    StepStatus(session, early, line);
    ParsersInStep(late.parser, early.parser, parsed);
  }

  /** Where the later reading resets the run, both forget everything else. */
  lemma ResetForgets(session: Session, late: Core, early: Core, line: RawLogLine)
    requires InStep(late, early) && line.component.Arena?
    requires ResetsRun(late.parser, RunName(late.reducer), ClassifyArena(line.message))
    ensures StepCore(session, late, line) == StepCore(session, early, line)
  {
    hide ClassifyArena, Sync, OpenedScreen;
    match ClassifyArena(line.message)
    case RunBegin(_) => RunStartForgets(session, late, early, line);
    case DraftDeck(id, hero) =>
      var event := ArenaDeckSnapshotStarted(id, hero);
      var source := SourceOf(session, line);
      assert Parse(late.parser, line) == Parse(early.parser, line);
      ApplyTwo(late.reducer.(observations := RecordEvents(late.reducer.observations, source, [event])), event, event);
      ApplyTwo(early.reducer.(observations := RecordEvents(early.reducer.observations, source, [event])), event, event);
  }

  lemma {:induction false} ResetMeets(session: Session, bytes: string, from: nat, late: Core, early: Core)
    requires from <= |bytes| && InStep(late, early)
    requires Resets(bytes, from, late.parser, RunName(late.reducer))
    ensures FoldFrom(session, bytes, from, late) == FoldFrom(session, bytes, from, early)
    decreases |bytes| - from
  {
    hide ClassifyArena, ArenaRecord, StepCore, ParseArena, ResetsRun, FoldFrom, InStep;
    FoldOne(session, bytes, from, late);
    FoldOne(session, bytes, from, early);
    var i := NewlineFrom(bytes, from).value;
    var line := ArenaRecord(bytes, from, i);
    ArenaRecordIsArena(bytes, from, i);
    if ResetsRun(late.parser, RunName(late.reducer), ClassifyArena(line.message)) {
      ResetForgets(session, late, early, line);
    } else {
      StepStatus(session, late, line);
      StepKeepsConfiguration(session, late, line);
      StepInStep(session, late, early, line);
      ResetMeets(session, bytes, i + 1, StepCore(session, late, line), StepCore(session, early, line));
    }
  }

  /** Unless a Redraft boundary is pending where it begins, a suffix that resets the run gives, read on its own, the
      parser and the reducer of the whole log; and if the log resets the run anywhere, only such a suffix does, pending
      boundary or not. */
  lemma SuffixIsHistoryIff(session: Session, slots: Option<U16>, identity: nat, bytes: string, start: nat)
    requires start <= |bytes| && IsBoundary(bytes, start)
    ensures var suffix, history :=
        CoreOf(SuffixReplay(session, slots, bytes, start)), TailPolls.HistoryCore(session, slots, identity, bytes);
      && (ResetSomewhere(bytes) && suffix == history ==> ResetAfter(bytes, start))
      && (ResetAfter(bytes, start) && !PendingAt(bytes, start) ==> suffix == history)
  {
    hide AttachFull, ConsumeAll, PendingLines, PendingEvents, FoldFrom, Resets, FlagsAfter, NewReducer;
    var fresh_ := FreshReplay(slots);
    var k := CoreOf(fresh_);
    FreshCore(slots);
    ArenaReplay(session, slots, identity, bytes);
    TailPolls.NothingSeen(slots);
    FoldIsReplay(session, fresh_, bytes, START_CURSOR, true);
    FoldIsReplay(session, fresh_, bytes, LogCursor(start, 0), false);
    FoldPasses(session, bytes, 0, start, k);
    var before := FoldFrom(session, bytes[..start], 0, k);
    FoldKeepsConfiguration(session, bytes[..start], 0, k);
    FoldStatus(session, bytes[..start], 0, k);
    FoldStatus(session, bytes, 0, k);
    FoldStatus(session, bytes, start, k);
    if ResetAfter(bytes, start) && !PendingAt(bytes, start) {
      ResetMeets(session, bytes, start, k, before);
    }
  }

  /** The live attach by a mention of the run start, however coincidental: it knows what the complete history knows if
      the log resets the run from that line on, and, in a log that resets the run at all, only then. */
  lemma TailRunIsHistoryIff(session: Session, slots: Option<U16>, identity: nat, bytes: string)
    requires TailAttach.ArenaTail(session, slots, bytes).how.TailRun?
    ensures NaiveLastLine(bytes, ON_BEGIN).Some?
    ensures var start := NaiveLastLine(bytes, ON_BEGIN).value.lineStart;
      var tail := TailPolls.TailCore(TailAttach.ArenaTail(session, slots, bytes));
      var history := TailPolls.HistoryCore(session, slots, identity, bytes);
      && start <= |bytes|
      && (ResetSomewhere(bytes) && tail == history ==> ResetAfter(bytes, start))
      && (ResetAfter(bytes, start) && !PendingAt(bytes, start) ==> tail == history)
  {
    hide TailAttach.FromSnapshot, AttachFull, SuffixReplay, NaiveLastLine, RunAccepted, Resets, FlagsAfter;
    TailPolls.SnapshotIsNoRun(session, slots, bytes);
    LastLineIsRecord(bytes, ON_BEGIN);
    var start := NaiveLastLine(bytes, ON_BEGIN).value.lineStart;
    SuffixIsHistoryIff(session, slots, identity, bytes, start);
  }
}
