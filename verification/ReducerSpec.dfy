/** What every reducer operation computes, as functions on `ReducerState`. */
module ReducerSpec {
  import opened Prelude
  import opened Text
  import opened ArenaState

  const EMPTY_REDUCER := ReducerState(
    EMPTY_SNAPSHOT, map[], None, map[], map[], map[], map[], map[], None, None, None)

  function Expected(s: ReducerState): Option<U16> {
    if s.configuredSlots.Some? then s.configuredSlots else s.inferredSlots
  }

  // Projections kept in step with the tables.

  ghost function CompletenessOf(s: ReducerState): DeckCompleteness {
    var observed := SlotCount(s.deckCounts);
    var expected := Expected(s);
    if !s.snapshot.draft.redraft.stage.Inactive? && !s.snapshot.run.deckSnapshotComplete then
      DeckCompleteness.Partial(RedraftPendingDeckReview)
    else if expected.None? then
      if observed == 0 then DeckCompleteness.Unknown else DeckCompleteness.Partial(ExpectedSlotsUnknown)
    else if observed == expected.value then DeckCompleteness.Complete
    else if observed < expected.value then DeckCompleteness.Partial(UnobservedSlots)
    else DeckCompleteness.Partial(ObservedSlotsExceedExpected)
  }

  ghost function DeckStateOf(s: ReducerState): DeckState {
    var observed := SlotCount(s.deckCounts);
    var expected := Expected(s);
    DeckState(
      expected, observed,
      if expected.Some? then Some(SaturatingMinus(expected.value, observed)) else None,
      CompletenessOf(s))
  }

  ghost function SyncDeck(s: ReducerState): ReducerState {
    s.(snapshot := s.snapshot.(deck := DeckCards(s.deckCounts), deckState := DeckStateOf(s)))
  }

  function SyncGameDeck(s: ReducerState): ReducerState {
    s.(snapshot := s.snapshot.(
      game := s.snapshot.game.(remainingDeck := DeckCards(PositiveCounts(s.gameCounts)))))
  }

  ghost function Sync(s: ReducerState): ReducerState {
    SyncGameDeck(SyncDeck(s))
  }

  // Redraft progress.

  /** The cards still missing from the expected deck, when that is a positive `u8`. */
  ghost function MissingSlots(s: ReducerState): Option<U8> {
    var expected := Expected(s);
    if expected.Some? && SlotCount(s.deckCounts) <= expected.value
       && expected.value - SlotCount(s.deckCounts) < 256
    then Some(expected.value - SlotCount(s.deckCounts))
    else None
  }

  function Positive(n: Option<U8>): Option<U8> {
    if n.Some? && n.value > 0 then n else None
  }

  function RoundLimit(policy: Option<RedraftPolicy>, inferred: Option<U8>): Option<U8> {
    if policy.Some? then Some(policy.value.pickRounds) else inferred
  }

  function DiscardLimit(policy: Option<RedraftPolicy>, inferred: Option<U8>): Option<U8> {
    if policy.Some? then Some(policy.value.discardCount) else inferred
  }

  ghost function BeginRedraft(s: ReducerState, known: bool): RedraftProgress {
    var inferred := Positive(MissingSlots(s));
    RedraftProgress(
      PickingOffers, RoundLimit(s.policy, inferred), known, 0, DiscardLimit(s.policy, inferred), [])
  }

  function AdvanceAfterPick(redraft: RedraftProgress): RedraftProgress {
    if redraft.stage.PickingOffers? && redraft.pickProgressKnown && redraft.pickRoundsRequired.Some?
       && redraft.pickRoundsCompleted >= redraft.pickRoundsRequired.value
    then redraft.(stage := AwaitingDiscardReview)
    else redraft
  }

  /** The replacement count recovered mid-Redraft: the missing cards plus the picks already made. */
  ghost function RecoveredReplacements(s: ReducerState): Option<U8> {
    var missing := MissingSlots(s);
    Positive(
      if missing.Some? && s.snapshot.run.draftPhase.Redrafting? && s.snapshot.draft.redraft.pickProgressKnown then
        if missing.value + s.snapshot.draft.phasePickCount < 256
        then Some(missing.value + s.snapshot.draft.phasePickCount) else None
      else missing)
  }

  ghost function SyncRedraftPolicy(s: ReducerState): ReducerState {
    var inferred := RecoveredReplacements(s);
    var draft := s.snapshot.draft;
    var limits := draft.redraft.(
      pickRoundsRequired := RoundLimit(s.policy, inferred),
      discardCountRequired := DiscardLimit(s.policy, inferred));
    var counted := if limits.pickProgressKnown then limits.(pickRoundsCompleted := draft.phasePickCount) else limits;
    var exhausted := counted.pickRoundsRequired.Some? && counted.pickRoundsCompleted >= counted.pickRoundsRequired.value;
    var draft' :=
      if counted.pickProgressKnown && exhausted && counted.stage.PickingOffers? then
        draft.(redraft := counted.(stage := AwaitingDiscardReview), currentOffer := None, offers := [], selected := None)
      else if counted.pickProgressKnown && !exhausted && counted.stage.AwaitingDiscardReview? then
        draft.(redraft := counted.(stage := PickingOffers))
      else
        draft.(redraft := counted);
    s.(snapshot := s.snapshot.(draft := draft'))
  }

  // One function per event that changes the tables; `Apply` re-syncs the projections.

  function WithDraft(s: ReducerState, draft: DraftState): ReducerState {
    s.(snapshot := s.snapshot.(draft := draft))
  }

  function WithRun(s: ReducerState, run: RunState): ReducerState {
    s.(snapshot := s.snapshot.(run := run))
  }

  function ClearedScreen(): Snapshot {
    EMPTY_SNAPSHOT.(mode := GameMode.Arena)
  }

  /** A run boundary forgets every Arena-owned field; configuration and seen sources survive. */
  function ClearRun(s: ReducerState): ReducerState {
    s.(snapshot := ClearedScreen(), deckCounts := map[], priorCounts := None,
       occurrences := map[], deckEntities := map[], gameCounts := map[], gameEntities := map[],
       observations := map[], inferredSlots := None)
  }

  function BeginRun(s: ReducerState, draftDeckId: string): ReducerState {
    var clear := ClearRun(s);
    clear.(snapshot := clear.snapshot.(
      run := EMPTY_RUN.(draftDeckId := Some(draftDeckId)),
      draft := EMPTY_DRAFT.(historyStatus := HistoryStatus.Complete, exactPhaseProgress := true)))
  }

  ghost function Resync(
    s: ReducerState, draftDeckId: string, hero: Option<CardId>, cardIds: seq<CardId>, mode: Option<string>): ReducerState
  {
    var clear := ClearRun(s);
    var hydrated := clear.(
      snapshot := clear.snapshot.(
        heroClass := if hero.Some? then HeroClass.OfHeroCard(hero.value) else None,
        run := EMPTY_RUN.(draftDeckId := Some(draftDeckId), deckSnapshotComplete := true,
                         stateOrigin := AuthoritativeResync),
        draft := EMPTY_DRAFT.(historyStatus := PartialResync)),
      deckCounts := AddCards(map[], cardIds));
    var sized := if s.configuredSlots.None?
                 then hydrated.(inferredSlots := Some(SlotCount(hydrated.deckCounts))) else hydrated;
    if mode.None? then sized
    else
      var phase := DraftPhase.FromLog(mode.value);
      var phased := WithRun(sized, sized.snapshot.run.(draftMode := mode, draftPhase := phase));
      if phase.Redrafting?
      then WithDraft(phased, phased.snapshot.draft.(redraft := BeginRedraft(phased, false)))
      else phased
  }

  /** Whether a deck snapshot refreshes the deck of the run already known. */
  predicate RefreshesKnownDeck(s: ReducerState, draftDeckId: string) {
    && s.snapshot.run.draftDeckId == Some(draftDeckId)
    && (s.snapshot.run.draftPhase.ActiveDeck? || s.snapshot.run.draftPhase.Redrafting?)
  }

  function SnapshotStarted(s: ReducerState, draftDeckId: string, hero: Option<CardId>): ReducerState {
    var current := s.snapshot.run.draftDeckId;
    var base := if current.Some? && current.value != draftDeckId then BeginRun(s, draftDeckId) else s;
    SnapshotOpened(base, draftDeckId, hero)
  }

  function OpenedScreen(snapshot: Snapshot, draftDeckId: string, hero: Option<CardId>): Snapshot {
    snapshot.(
      mode := GameMode.Arena,
      run := snapshot.run.(draftDeckId := Some(draftDeckId), deckSnapshotComplete := false),
      draft := snapshot.draft.(redraft := NO_REDRAFT),
      heroClass := if hero.Some? then HeroClass.OfHeroCard(hero.value) else snapshot.heroClass)
  }

  function SnapshotOpened(s: ReducerState, draftDeckId: string, hero: Option<CardId>): ReducerState {
    var keep := RefreshesKnownDeck(s, draftDeckId);
    s.(
      snapshot := OpenedScreen(s.snapshot, draftDeckId, hero),
      priorCounts := if keep then Some(s.deckCounts) else None,
      occurrences := map[],
      deckCounts := map[],
      deckEntities := map[],
      observations := map[],
      inferredSlots := if keep then s.inferredSlots else None)
  }

  function PriorCount(prior: Option<map<CardId, nat>>, cardId: CardId): nat {
    if prior.Some? && cardId in prior.value then prior.value[cardId] else 1
  }

  function SnapshotCard(s: ReducerState, cardId: CardId): ReducerState {
    var base := s.(snapshot := s.snapshot.(mode := GameMode.Arena));
    if !IsRealCardId(cardId) then base
    else
      var occurrences := SaturatingNext(if cardId in s.occurrences then s.occurrences[cardId] else 0);
      base.(occurrences := s.occurrences[cardId := occurrences],
            deckCounts := s.deckCounts[cardId := Max(PriorCount(s.priorCounts, cardId), occurrences)])
  }

  ghost function SnapshotCompleted(s: ReducerState): ReducerState {
    WithRun(s, s.snapshot.run.(deckSnapshotComplete := true)).(
      priorCounts := None, occurrences := map[],
      inferredSlots := if s.configuredSlots.None? && s.inferredSlots.None?
                       then Some(SlotCount(s.deckCounts)) else s.inferredSlots)
  }

  /** Entering a phase that offers cards opens a new pick count. */
  ghost function EnterOfferPhase(s: ReducerState, phase: DraftPhase): ReducerState {
    var entry := WithRun(s, s.snapshot.run.(deckSnapshotComplete := false));
    var draft := entry.snapshot.draft.(phasePickCount := 0, currentOffer := None, offers := [], selected := None);
    var staged := if phase.Redrafting?
                  then draft.(exactPhaseProgress := true, redraft := BeginRedraft(entry, true))
                  else draft.(redraft := NO_REDRAFT);
    WithDraft(entry, staged.(pickNumber := if staged.exactPhaseProgress then 1 else 0))
  }

  ghost function DeckEditorClosed(s: ReducerState, previous: DraftPhase): ReducerState {
    var observed := SlotCount(s.deckCounts);
    var staged := if previous.Redrafting?
                  then WithDraft(s, s.snapshot.draft.(redraft := s.snapshot.draft.redraft.(stage := RedraftStage.Complete)))
                  else s;
    var sized := if s.configuredSlots.None? && !previous.Redrafting?
                 then staged.(inferredSlots := Some(observed)) else staged;
    WithRun(sized, sized.snapshot.run.(deckSnapshotComplete := Expected(sized) == Some(observed)))
  }

  ghost function DraftMode(s: ReducerState, mode: string): ReducerState {
    var phase := DraftPhase.FromLog(mode);
    var previous := s.snapshot.run.draftPhase;
    var noted := s.(snapshot := s.snapshot.(
      mode := GameMode.Arena, run := s.snapshot.run.(draftMode := Some(mode), draftPhase := phase)));
    var entered := if phase.AcceptsCardOffers() && previous != phase then EnterOfferPhase(noted, phase) else noted;
    if phase.ActiveDeck? && SlotCount(s.deckCounts) > 0 then DeckEditorClosed(entered, previous) else entered
  }

  function Reveal(s: ReducerState, entity: nat, cardId: CardId): ReducerState {
    s.(deckEntities := s.deckEntities[entity := cardId], deckCounts := AddCard(s.deckCounts, cardId))
  }

  predicate IsDeckZone(zone: string) { SameIgnoringCase(zone, "DECK") }

  function RemoveOne(counts: map<CardId, nat>, cardId: CardId): map<CardId, nat> {
    if Count(counts, cardId) <= 1 then counts - {cardId} else counts[cardId := counts[cardId] - 1]
  }

  /** Entity `entity` leaves the deck for the first time, or again after it came back. */
  predicate IsDeckExit(s: ReducerState, entity: nat, cardId: CardId, from: string, to: string) {
    && s.snapshot.game.active && IsRealCardId(cardId) && IsDeckZone(from) && !IsDeckZone(to)
    && (entity in s.gameEntities ==> s.gameEntities[entity].inDeck)
  }

  predicate IsDeckEntry(s: ReducerState, entity: nat, cardId: CardId, from: string, to: string) {
    && s.snapshot.game.active && IsRealCardId(cardId) && !IsDeckZone(from) && IsDeckZone(to)
    && (entity in s.gameEntities ==> !s.gameEntities[entity].inDeck)
  }

  function ZoneChanged(s: ReducerState, entity: nat, cardId: CardId, from: string, to: string): ReducerState {
    if !s.snapshot.game.active || !IsRealCardId(cardId) || IsDeckZone(from) == IsDeckZone(to) then s
    else
      s.(gameCounts :=
           if IsDeckExit(s, entity, cardId, from, to) then RemoveOne(s.gameCounts, cardId)
           else if IsDeckEntry(s, entity, cardId, from, to)
           then s.gameCounts[cardId := Count(s.gameCounts, cardId) + 1]
           else s.gameCounts,
         gameEntities := s.gameEntities[entity := GameDeckEntity(cardId, IsDeckZone(to))])
  }

  function ValidItems(items: seq<OfferItem>): seq<OfferItem> {
    if items == [] then []
    else (if items[0].Valid() then [items[0]] else []) + ValidItems(items[1..])
  }

  function CardOffers(items: seq<OfferItem>, confidence: real, source: OfferSource): seq<DraftOffer> {
    if items == [] then []
    else (if items[0].Card? then [DraftOffer(items[0].cardId, confidence, source)] else [])
         + CardOffers(items[1..], confidence, source)
  }

  function Offer(
    s: ReducerState, pickNumber: Option<U8>, kind: OfferKind, items: seq<OfferItem>, confidence: real,
    source: OfferSource): ReducerState
  {
    var valid := ValidItems(items);
    if valid == [] then s
    else
      var number := if pickNumber.Some? then pickNumber.value else s.snapshot.draft.NextPickNumber();
      WithDraft(s, s.snapshot.draft.(
        pickNumber := number, offers := CardOffers(valid, confidence, source),
        currentOffer := Some(CurrentOffer(kind, number, valid, confidence, source)), selected := None))
  }

  /** Once the Redraft rounds are used up a choice is not attributable to a pick. */
  predicate IgnoresPick(s: ReducerState, cardId: CardId) {
    || !IsRealCardId(cardId)
    || (s.snapshot.run.draftPhase.Redrafting? && !s.snapshot.draft.redraft.stage.PickingOffers?)
  }

  function CountPick(draft: DraftState, phase: DraftPhase): DraftState {
    if !phase.AcceptsCardOffers() then draft
    else
      var counted := draft.(phasePickCount := SaturatingNext(draft.phasePickCount), currentOffer := None, offers := []);
      var numbered := counted.(pickNumber := counted.NextPickNumber());
      if phase.Redrafting?
      then numbered.(redraft := AdvanceAfterPick(numbered.redraft.(pickRoundsCompleted := numbered.phasePickCount)))
      else numbered
  }

  function NotePick(s: ReducerState, cardId: CardId): ReducerState {
    var chosen := s.snapshot.draft.(selected := Some(cardId), selections := s.snapshot.draft.selections + [cardId]);
    s.(snapshot := s.snapshot.(mode := GameMode.Arena, draft := CountPick(chosen, s.snapshot.run.draftPhase)))
  }

  /** A pick extends a deck that is not authoritative, or no longer after a resync. */
  function ExtendDeck(s: ReducerState, cardId: CardId): ReducerState {
    var run := s.snapshot.run;
    var afterResync := run.stateOrigin.AuthoritativeResync? && run.draftPhase.AcceptsCardOffers();
    if run.deckSnapshotComplete && !afterResync then s
    else
      WithRun(s, run.(deckSnapshotComplete := run.deckSnapshotComplete && !afterResync)).(
        deckCounts := AddCard(s.deckCounts, cardId))
  }

  function Pick(s: ReducerState, cardId: CardId): ReducerState {
    ExtendDeck(NotePick(s, cardId), cardId)
  }

  function WithRedraft(s: ReducerState, redraft: RedraftProgress): ReducerState {
    WithDraft(s, s.snapshot.draft.(redraft := redraft))
  }

  function ReviewStarted(s: ReducerState): ReducerState {
    if !s.snapshot.draft.redraft.stage.AwaitingDiscardReview? then s
    else WithDraft(s, s.snapshot.draft.(
      redraft := s.snapshot.draft.redraft.(stage := ReviewingDiscards),
      currentOffer := None, offers := [], selected := None))
  }

  function DiscardSelected(s: ReducerState, cardId: CardId): ReducerState {
    var redraft := s.snapshot.draft.redraft;
    if IsRealCardId(cardId) && redraft.stage.ReviewingDiscards?
       && (redraft.discardCountRequired.Some? ==> |redraft.discardedCardIds| < redraft.discardCountRequired.value)
    then WithRedraft(s, redraft.(discardedCardIds := redraft.discardedCardIds + [cardId]))
    else s
  }

  function DiscardsReplaced(s: ReducerState, cardIds: seq<CardId>): ReducerState {
    var redraft := s.snapshot.draft.redraft;
    if redraft.stage.ReviewingDiscards? && (forall id | id in cardIds :: IsRealCardId(id))
       && redraft.discardCountRequired.Some? && |cardIds| <= redraft.discardCountRequired.value
    then WithRedraft(s, redraft.(discardedCardIds := cardIds))
    else s
  }

  function ReviewCompleted(s: ReducerState): ReducerState {
    var redraft := s.snapshot.draft.redraft;
    if redraft.stage.ReviewingDiscards? && redraft.discardCountRequired.Some?
       && |redraft.discardedCardIds| == redraft.discardCountRequired.value
    then WithRedraft(s, redraft.(stage := RedraftStage.Complete))
    else s
  }

  ghost function StartGame(s: ReducerState): ReducerState {
    if s.snapshot.game.active then s
    else s.(
      snapshot := s.snapshot.(game := s.snapshot.game.(
        active := true, result := None, initialDeckSize := SlotCount(s.deckCounts))),
      gameCounts := s.deckCounts, gameEntities := map[])
  }

  function EndGame(s: ReducerState, result: GameResult): ReducerState {
    s.(snapshot := s.snapshot.(game := s.snapshot.game.(active := false, result := Some(result))))
  }

  function WithHero(s: ReducerState, hero: Option<HeroClass>): ReducerState {
    s.(snapshot := s.snapshot.(heroClass := hero))
  }

  predicate IsDeckRecord(event: GameEvent) {
    event.DeckList? || event.DeckCardSeen? || event.CardRevealed?
  }

  predicate IsRunRecord(event: GameEvent) {
    || event.ArenaRunStarted? || event.ArenaAuthoritativeResync? || event.ArenaDeckSnapshotStarted?
    || event.ArenaDeckSnapshotCard? || event.ArenaDeckSnapshotCompleted? || event.ArenaDraftMode?
  }

  predicate IsGameRecord(event: GameEvent) {
    event.FriendlyCardZoneChanged? || event.GameStarted? || event.GameEnded?
  }

  predicate IsReviewRecord(event: GameEvent) {
    || event.ArenaRedraftDiscardReviewStarted? || event.ArenaRedraftDiscardSelected?
    || event.ArenaRedraftDiscardSelectionsReplaced? || event.ArenaRedraftDiscardReviewCompleted?
  }

  /** The change an event makes to the tables and the unsynced snapshot fields. */
  ghost function Mutate(s: ReducerState, event: GameEvent): ReducerState {
    match event
    case GameModeSeen(raw) => s.(snapshot := s.snapshot.(mode := GameMode.FromLog(raw)))
    case HeroClassSeen(raw) => WithHero(s, HeroClass.FromLog(raw))
    case HeroCard(id) => WithHero(s, HeroClass.OfHeroCard(id))
    case DeckList(ids) => s.(deckCounts := AddCards(map[], ids), deckEntities := map[])
    case DeckCardSeen(entity, id) =>
      if entity.Some? then Reveal(s, entity.value, id) else s.(deckCounts := AddCard(s.deckCounts, id))
    case ArenaRunStarted(id) => BeginRun(s, id)
    case ArenaAuthoritativeResync(id, hero, cards, mode) => Resync(s, id, hero, cards, mode)
    case ArenaDeckSnapshotStarted(id, hero) => SnapshotStarted(s, id, hero)
    case ArenaDeckSnapshotCard(id) => SnapshotCard(s, id)
    case ArenaDeckSnapshotCompleted => SnapshotCompleted(s)
    case ArenaDraftMode(mode) => DraftMode(s, mode)
    case CardRevealed(entity, id, zone) =>
      if zone.Some? && IsDeckZone(zone.value) && IsRealCardId(id) && entity !in s.deckEntities
      then Reveal(s, entity, id) else s
    case FriendlyCardZoneChanged(entity, id, from, to) => ZoneChanged(s, entity, id, from, to)
    case ArenaOffer(number, kind, items, confidence, source) => Offer(s, number, kind, items, confidence, source)
    case ArenaPick(id) => Pick(s, id)
    case ArenaRedraftDiscardReviewStarted => ReviewStarted(s)
    case ArenaRedraftDiscardSelected(id) => DiscardSelected(s, id)
    case ArenaRedraftDiscardSelectionsReplaced(ids) => DiscardsReplaced(s, ids)
    case ArenaRedraftDiscardReviewCompleted => ReviewCompleted(s)
    case GameStarted => StartGame(s)
    case GameEnded(result) => EndGame(s, result)
  }

  /** Events that return before anything, the projections included, is touched. */
  predicate Ignores(s: ReducerState, event: GameEvent) {
    match event
    case DeckCardSeen(entity, id) => !IsRealCardId(id) || (entity.Some? && entity.value in s.deckEntities)
    case ArenaPick(id) => IgnoresPick(s, id)
    case _ => false
  }

  ghost function Apply(s: ReducerState, event: GameEvent): ReducerState {
    if Ignores(s, event) then s else Sync(Mutate(s, event))
  }

  ghost function ApplyAll(s: ReducerState, events: seq<GameEvent>): ReducerState
    decreases events
  {
    if events == [] then s else ApplyAll(Apply(s, events[0]), events[1..])
  }

  // Provenance.

  function ItemCards(items: seq<OfferItem>): seq<CardId> {
    if items == [] then []
    else (var id := items[0].ObservedCard(); if id.Some? then [id.value] else []) + ItemCards(items[1..])
  }

  function ObservedCards(event: GameEvent): seq<CardId> {
    match event
    case DeckList(ids) => ids
    case DeckCardSeen(_, id) => [id]
    case ArenaDeckSnapshotCard(id) => [id]
    case ArenaPick(id) => [id]
    case ArenaRedraftDiscardSelected(id) => [id]
    case CardRevealed(_, id, _) => [id]
    case FriendlyCardZoneChanged(_, id, _, _) => [id]
    case ArenaOffer(_, _, items, _, _) => ItemCards(items)
    case _ => []
  }

  type Observations = map<CardId, seq<EventSource>>

  function RecordCard(table: Observations, source: EventSource, id: CardId): Observations {
    if !IsRealCardId(id) then table
    else
      var sources := if id in table then table[id] else [];
      var kept := if |sources| == MAX_SOURCES_PER_CARD then sources[1..] else sources;
      table[id := kept + [source]]
  }

  function RecordCards(table: Observations, source: EventSource, ids: seq<CardId>): Observations
    decreases ids
  {
    if ids == [] then table else RecordCards(RecordCard(table, source, ids[0]), source, ids[1..])
  }

  function RecordEvents(table: Observations, source: EventSource, events: seq<GameEvent>): Observations
    decreases events
  {
    if events == [] then table
    else RecordEvents(RecordCards(table, source, ObservedCards(events[0])), source, events[1..])
  }

  /** A reducer together with the sources it has consumed. */
  datatype Tracked = Tracked(state: ReducerState, seen: set<EventSource>)

  /** The events of one physical record that has not been consumed before. */
  ghost function ConsumeLine(s: ReducerState, source: EventSource, events: seq<GameEvent>): ReducerState {
    ApplyAll(s.(observations := RecordEvents(s.observations, source, events)), events)
  }

  /** All events of one physical record, applied at most once per source. */
  ghost function ApplySourcedLine(t: Tracked, source: EventSource, events: seq<GameEvent>): Tracked {
    if events == [] || source in t.seen then t
    else Tracked(ConsumeLine(t.state, source, events), t.seen + {source})
  }

  // Configuration and manual actions.

  ghost function SetExpectedSlots(s: ReducerState, slots: Option<U16>): ReducerState {
    SyncDeck(s.(configuredSlots := slots))
  }

  ghost function SetPolicy(s: ReducerState, policy: Option<RedraftPolicy>): ReducerState {
    if policy.Some? && !policy.value.Valid() then s
    else SyncDeck(SyncRedraftPolicy(s.(policy := policy)))
  }

  ghost function NewReducer(slots: Option<U16>): ReducerState {
    SetExpectedSlots(EMPTY_REDUCER, slots)
  }

  datatype ManualAction =
    | ReplaceOffer(kind: OfferKind, items: seq<OfferItem>)
    | BeginDiscardReview
    | SetDiscardSelections(cardIds: seq<CardId>)
    | CompleteDiscardReview

  datatype ManualError =
    | NotInDraftPhase(phase: DraftPhase)
    | InvalidOfferKindForPhase(phase: DraftPhase, kind: OfferKind)
    | RedraftOfferCaptureWithheld(stage: RedraftStage)
    | EmptyOffer
    | InvalidOfferItem(index: nat)
    | DiscardReviewNotReady(stage: RedraftStage)
    | DiscardCountUnknown
    | TooManyDiscards(maximum: U8, received: nat)
    | InvalidDiscardCard(index: nat)
    | IncompleteDiscardSelection(required: U8, selected: nat)

  function FirstInvalidItem(items: seq<OfferItem>, from: nat): (r: Option<nat>)
    requires from <= |items|
    ensures r.None? ==> forall i | from <= i < |items| :: items[i].Valid()
    ensures r.Some? ==> r.value < |items| && !items[r.value].Valid()
    decreases |items| - from
  {
    if from == |items| then None
    else if !items[from].Valid() then Some(from) else FirstInvalidItem(items, from + 1)
  }

  function FirstUnrealCard(ids: seq<CardId>, from: nat): (r: Option<nat>)
    requires from <= |ids|
    ensures r.None? ==> forall i | from <= i < |ids| :: IsRealCardId(ids[i])
    ensures r.Some? ==> r.value < |ids| && !IsRealCardId(ids[r.value])
    decreases |ids| - from
  {
    if from == |ids| then None
    else if !IsRealCardId(ids[from]) then Some(from) else FirstUnrealCard(ids, from + 1)
  }

  function ManualOffer(s: ReducerState, kind: OfferKind, items: seq<OfferItem>): Result<GameEvent, ManualError> {
    var phase := s.snapshot.run.draftPhase;
    var redraft := s.snapshot.draft.redraft;
    var invalid := FirstInvalidItem(items, 0);
    if items == [] then Err(EmptyOffer)
    else if invalid.Some? then Err(InvalidOfferItem(invalid.value))
    else if !phase.AcceptsCardOffers() then Err(NotInDraftPhase(phase))
    else if phase.Drafting? && kind.RedraftPick? then Err(InvalidOfferKindForPhase(phase, kind))
    else if phase.Redrafting? && !redraft.AcceptsNormalDraftCapture()
    then Err(RedraftOfferCaptureWithheld(redraft.stage))
    else if phase.Redrafting? && !kind.RedraftPick? then Err(InvalidOfferKindForPhase(phase, kind))
    else Ok(ArenaOffer(Some(s.snapshot.draft.NextPickNumber()), kind, items, 1.0, Manual))
  }

  /** The event a manual action stands for, or why it is refused. */
  function ManualEvent(s: ReducerState, action: ManualAction): Result<GameEvent, ManualError> {
    var redraft := s.snapshot.draft.redraft;
    match action
    case ReplaceOffer(kind, items) => ManualOffer(s, kind, items)
    case BeginDiscardReview =>
      if !redraft.stage.AwaitingDiscardReview? then Err(DiscardReviewNotReady(redraft.stage))
      else Ok(ArenaRedraftDiscardReviewStarted)
    case SetDiscardSelections(ids) =>
      if !redraft.stage.ReviewingDiscards? then Err(DiscardReviewNotReady(redraft.stage))
      else if redraft.discardCountRequired.None? then Err(DiscardCountUnknown)
      else if |ids| > redraft.discardCountRequired.value
      then Err(TooManyDiscards(redraft.discardCountRequired.value, |ids|))
      else
        var unreal := FirstUnrealCard(ids, 0);
        if unreal.Some? then Err(InvalidDiscardCard(unreal.value))
        else Ok(ArenaRedraftDiscardSelectionsReplaced(ids))
    case CompleteDiscardReview =>
      if !redraft.stage.ReviewingDiscards? then Err(DiscardReviewNotReady(redraft.stage))
      else if redraft.discardCountRequired.None? then Err(DiscardCountUnknown)
      else if |redraft.discardedCardIds| != redraft.discardCountRequired.value
      then Err(IncompleteDiscardSelection(redraft.discardCountRequired.value, |redraft.discardedCardIds|))
      else Ok(ArenaRedraftDiscardReviewCompleted)
  }

  /** What the caller of a manual action is told. */
  function Outcome(event: Result<GameEvent, ManualError>): Result<(), ManualError> {
    match event
    case Ok(_) => Ok(())
    case Err(error) => Err(error)
  }

  ghost function ApplyManual(s: ReducerState, action: ManualAction): ReducerState {
    var event := ManualEvent(s, action);
    if event.Ok? then Apply(s, event.value) else s
  }

  // Runs.

  /** Everything a caller can do to a reducer. */
  datatype Operation =
    | Event(event: GameEvent)
    | SourcedLine(source: EventSource, events: seq<GameEvent>)
    | ExpectSlots(slots: Option<U16>)
    | ConfigureRedraft(policy: Option<RedraftPolicy>)
    | ManualAct(action: ManualAction)

  ghost function Perform(t: Tracked, op: Operation): Tracked {
    match op
    case Event(event) => t.(state := Apply(t.state, event))
    case SourcedLine(source, events) => ApplySourcedLine(t, source, events)
    case ExpectSlots(slots) => t.(state := SetExpectedSlots(t.state, slots))
    case ConfigureRedraft(policy) => t.(state := SetPolicy(t.state, policy))
    case ManualAct(action) => t.(state := ApplyManual(t.state, action))
  }

  ghost function Run(t: Tracked, ops: seq<Operation>): Tracked
    decreases ops
  {
    if ops == [] then t else Run(Perform(t, ops[0]), ops[1..])
  }

  /** The reducer after any run from a fresh start. */
  ghost function RunFresh(slots: Option<U16>, ops: seq<Operation>): Tracked {
    Run(Tracked(NewReducer(slots), {}), ops)
  }
}
