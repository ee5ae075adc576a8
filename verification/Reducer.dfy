/** The Arena reducer as an object that is updated in place, proved against `ReducerSpec`. */
module Reducer {
  import opened Prelude
  import opened Ordered
  import opened ArenaState
  import opened ReducerSpec
  import opened ReducerCheckpoint

  /** Saturating sum of the counts; the iteration order does not matter. */
  method SaturatingSlotTotal(counts: map<CardId, nat>) returns (total: U16)
    ensures total == SlotCount(counts)
  {
    total := 0;
    var rest := counts;
    ghost var done: nat := 0;
    while rest != map[]
      invariant total == Cap16(done)
      invariant done + Total(rest) == Total(counts)
      decreases |rest|
    {
      var id :| id in rest;
      TotalRemove(rest, id);
      done := done + rest[id];
      total := Cap16(total + rest[id]);
      rest := rest - {id};
    }
  }

  class ArenaReducer {
    var snapshot: Snapshot
    var deckCounts: map<CardId, nat>
    var priorCounts: Option<map<CardId, nat>>
    var occurrences: map<CardId, U8>
    var deckEntities: map<nat, CardId>
    var gameCounts: map<CardId, nat>
    var gameEntities: map<nat, GameDeckEntity>
    var seen: set<EventSource>
    var observations: map<CardId, seq<EventSource>>
    var configuredSlots: Option<U16>
    var inferredSlots: Option<U16>
    var policy: Option<RedraftPolicy>

    function Model(): ReducerState
      reads this
    {
      ReducerState(snapshot, deckCounts, priorCounts, occurrences, deckEntities, gameCounts, gameEntities,
                   observations, configuredSlots, inferredSlots, policy)
    }

    function State(): Tracked
      reads this
    {
      Tracked(Model(), seen)
    }

    constructor New()
      ensures State() == Tracked(EMPTY_REDUCER, {})
    {
      snapshot := EMPTY_SNAPSHOT;
      deckCounts, priorCounts, occurrences, deckEntities := map[], None, map[], map[];
      gameCounts, gameEntities := map[], map[];
      seen, observations := {}, map[];
      configuredSlots, inferredSlots, policy := None, None, None;
    }

    constructor WithExpectedDeckSlots(slots: Option<U16>)
      ensures State() == Tracked(NewReducer(slots), {})
    {
      snapshot := EMPTY_SNAPSHOT;
      deckCounts, priorCounts, occurrences, deckEntities := map[], None, map[], map[];
      gameCounts, gameEntities := map[], map[];
      seen, observations := {}, map[];
      configuredSlots, inferredSlots, policy := slots, None, None;
      new;
      assert Model() == EMPTY_REDUCER.(configuredSlots := slots);
      SyncDeckProjection();
    }

    constructor FromModel(s: ReducerState)
      ensures State() == Tracked(s, {})
    {
      snapshot := s.snapshot;
      deckCounts, priorCounts, occurrences, deckEntities := s.deckCounts, s.priorCounts, s.occurrences, s.deckEntities;
      gameCounts, gameEntities := s.gameCounts, s.gameEntities;
      seen, observations := {}, s.observations;
      configuredSlots, inferredSlots, policy := s.configuredSlots, s.inferredSlots, s.policy;
    }

    // Projections.

    method DeckHealth(observed: U16, expected: Option<U16>) returns (completeness: DeckCompleteness)
      requires observed == SlotCount(deckCounts) && expected == Expected(Model())
      ensures completeness == CompletenessOf(Model())
    {
      if !snapshot.draft.redraft.stage.Inactive? && !snapshot.run.deckSnapshotComplete {
        return DeckCompleteness.Partial(RedraftPendingDeckReview);
      }
      match expected {
        case None =>
          return if observed == 0 then DeckCompleteness.Unknown else DeckCompleteness.Partial(ExpectedSlotsUnknown);
        case Some(slots) =>
          return if observed == slots then DeckCompleteness.Complete
                 else if observed < slots then DeckCompleteness.Partial(UnobservedSlots)
                 else DeckCompleteness.Partial(ObservedSlotsExceedExpected);
      }
    }

    method SyncDeckProjection()
      modifies this`snapshot
      ensures Model() == SyncDeck(old(Model()))
    {
      var observed := SaturatingSlotTotal(deckCounts);
      var expected := if configuredSlots.Some? then configuredSlots else inferredSlots;
      var unobserved := if expected.Some? then Some(SaturatingMinus(expected.value, observed)) else None;
      var completeness := DeckHealth(observed, expected);
      snapshot := snapshot.(deck := DeckCards(deckCounts),
                            deckState := DeckState(expected, observed, unobserved, completeness));
    }

    method SyncGameProjection()
      modifies this`snapshot
      ensures Model() == SyncGameDeck(old(Model()))
    {
      snapshot := snapshot.(game := snapshot.game.(remainingDeck := DeckCards(PositiveCounts(gameCounts))));
    }

    method SyncProjections()
      modifies this`snapshot
      ensures Model() == Sync(old(Model()))
    {
      SyncDeckProjection();
      SyncGameProjection();
    }

    // Redraft progress.

    method InferReplacements() returns (missing: Option<U8>)
      ensures missing == MissingSlots(Model())
    {
      var observed := SaturatingSlotTotal(deckCounts);
      var expected := if configuredSlots.Some? then configuredSlots else inferredSlots;
      missing := None;
      if expected.Some? && observed <= expected.value && expected.value - observed < 256 {
        missing := Some(expected.value - observed);
      }
    }

    method BeginRedraftWithProgress(known: bool)
      modifies this`snapshot
      ensures Model() == WithRedraft(old(Model()), BeginRedraft(old(Model()), known))
    {
      var missing := InferReplacements();
      var inferred := if missing.Some? && missing.value > 0 then missing else None;
      var rounds, discards := inferred, inferred;
      if policy.Some? {
        rounds, discards := Some(policy.value.pickRounds), Some(policy.value.discardCount);
      }
      snapshot := snapshot.(draft := snapshot.draft.(
        redraft := RedraftProgress(PickingOffers, rounds, known, 0, discards, [])));
    }

    method AdvanceRedraftAfterPick()
      modifies this`snapshot
      ensures Model() == WithRedraft(old(Model()), AdvanceAfterPick(old(snapshot).draft.redraft))
    {
      var redraft := snapshot.draft.redraft;
      if !redraft.stage.PickingOffers? || !redraft.pickProgressKnown {
        return;
      }
      if redraft.pickRoundsRequired.Some? && redraft.pickRoundsCompleted >= redraft.pickRoundsRequired.value {
        snapshot := snapshot.(draft := snapshot.draft.(redraft := redraft.(stage := AwaitingDiscardReview)));
      }
    }

    method SyncPolicy()
      modifies this`snapshot
      ensures Model() == SyncRedraftPolicy(old(Model()))
    {
      var missing := InferReplacements();
      if missing.Some? && snapshot.run.draftPhase.Redrafting? && snapshot.draft.redraft.pickProgressKnown {
        if missing.value + snapshot.draft.phasePickCount < 256 {
          missing := Some(missing.value + snapshot.draft.phasePickCount);
        } else {
          missing := None;
        }
      }
      var inferred := if missing.Some? && missing.value > 0 then missing else None;
      var rounds, discards := inferred, inferred;
      if policy.Some? {
        rounds, discards := Some(policy.value.pickRounds), Some(policy.value.discardCount);
      }
      var draft := snapshot.draft;
      draft := draft.(redraft := draft.redraft.(pickRoundsRequired := rounds, discardCountRequired := discards));
      if draft.redraft.pickProgressKnown {
        draft := draft.(redraft := draft.redraft.(pickRoundsCompleted := draft.phasePickCount));
        if rounds.Some? && draft.phasePickCount >= rounds.value {
          if draft.redraft.stage.PickingOffers? {
            draft := draft.(redraft := draft.redraft.(stage := AwaitingDiscardReview));
            draft := draft.(currentOffer := None, offers := [], selected := None);
          }
        } else if draft.redraft.stage.AwaitingDiscardReview? {
          draft := draft.(redraft := draft.redraft.(stage := PickingOffers));
        }
      }
      snapshot := snapshot.(draft := draft);
    }

    // Tables.

    method AddOne(cardId: CardId)
      modifies this`deckCounts
      ensures deckCounts == AddCard(old(deckCounts), cardId)
    {
      if IsRealCardId(cardId) {
        deckCounts := deckCounts[cardId := Count(deckCounts, cardId) + 1];
      }
    }

    method AddEach(cardIds: seq<CardId>)
      modifies this`deckCounts
      ensures deckCounts == AddCards(old(deckCounts), cardIds)
    {
      for i := 0 to |cardIds|
        invariant AddCards(deckCounts, cardIds[i..]) == AddCards(old(deckCounts), cardIds)
      {
        assert cardIds[i..][1..] == cardIds[i + 1..];
        AddOne(cardIds[i]);
      }
    }

    /** Clears every Arena-owned table. */
    method ForgetRun()
      modifies this
      ensures seen == old(seen)
      ensures Model() == ClearRun(old(Model()))
    {
      hide ClearedScreen;
      snapshot := ClearedScreen();
      deckCounts, priorCounts, occurrences, deckEntities := map[], None, map[], map[];
      gameCounts, gameEntities := map[], map[];
      observations := map[];
      inferredSlots := None;
    }

    method BeginNewArenaRun(draftDeckId: string)
      modifies this
      ensures seen == old(seen)
      ensures Model() == BeginRun(old(Model()), draftDeckId)
    {
      ForgetRun();
      var run := snapshot.run.(
        draftDeckId := Some(draftDeckId), deckSnapshotComplete := false, stateOrigin := Replay);
      var draft := snapshot.draft.(historyStatus := HistoryStatus.Complete, exactPhaseProgress := true);
      snapshot := snapshot.(run := run, draft := draft);
    }

    method HydrateFromSnapshot(
      draftDeckId: string, heroCardId: Option<CardId>, cardIds: seq<CardId>, draftMode: Option<string>)
      modifies this
      ensures seen == old(seen)
      ensures Model() == Resync(old(Model()), draftDeckId, heroCardId, cardIds, draftMode)
    {
      ForgetRun();
      var run := snapshot.run.(
        draftDeckId := Some(draftDeckId), deckSnapshotComplete := true, stateOrigin := AuthoritativeResync);
      var draft := snapshot.draft.(
        historyStatus := PartialResync, exactPhaseProgress := false, pickNumber := 0, phasePickCount := 0);
      var hero := snapshot.heroClass;
      if heroCardId.Some? {
        hero := HeroClass.OfHeroCard(heroCardId.value);
      }
      snapshot := snapshot.(run := run, draft := draft, heroClass := hero);
      AddEach(cardIds);
      if configuredSlots.None? {
        var observed := SaturatingSlotTotal(deckCounts);
        inferredSlots := Some(observed);
      }
      if draftMode.Some? {
        var phase := DraftPhase.FromLog(draftMode.value);
        snapshot := snapshot.(run := run.(draftMode := draftMode, draftPhase := phase));
        if phase.Redrafting? {
          BeginRedraftWithProgress(false);
        }
      }
    }

    method StartDeckSnapshot(draftDeckId: string, heroCardId: Option<CardId>)
      modifies this
      ensures seen == old(seen)
      ensures Model() == SnapshotStarted(old(Model()), draftDeckId, heroCardId)
    {
      if snapshot.run.draftDeckId.Some? && snapshot.run.draftDeckId.value != draftDeckId {
        BeginNewArenaRun(draftDeckId);
      }
      OpenDeckSnapshot(draftDeckId, heroCardId);
    }

    method OpenScreen(draftDeckId: string, heroCardId: Option<CardId>)
      modifies this`snapshot
      ensures snapshot == OpenedScreen(old(snapshot), draftDeckId, heroCardId)
    {
      hide HeroClass.OfHeroCard;
      var hero := if heroCardId.Some? then HeroClass.OfHeroCard(heroCardId.value) else snapshot.heroClass;
      var run := snapshot.run.(draftDeckId := Some(draftDeckId), deckSnapshotComplete := false);
      var draft := snapshot.draft.(redraft := NO_REDRAFT);
      snapshot := snapshot.(mode := GameMode.Arena, run := run, draft := draft, heroClass := hero);
    }

    /** Empties the tables a listing fills, keeping the old counts aside for a refresh of the same deck. */
    method StartListing(preserve: bool)
      modifies this`priorCounts, this`inferredSlots, this`occurrences, this`deckCounts, this`deckEntities, this`observations
      ensures Model() == old(Model()).(
        priorCounts := if preserve then Some(old(deckCounts)) else None,
        inferredSlots := if preserve then old(inferredSlots) else None,
        occurrences := map[], deckCounts := map[], deckEntities := map[], observations := map[])
    {
      if preserve {
        priorCounts := Some(deckCounts);
      } else {
        priorCounts, inferredSlots := None, None;
      }
      occurrences, deckCounts, deckEntities, observations := map[], map[], map[], map[];
    }

    method OpenDeckSnapshot(draftDeckId: string, heroCardId: Option<CardId>)
      modifies this
      ensures seen == old(seen)
      ensures Model() == SnapshotOpened(old(Model()), draftDeckId, heroCardId)
    {
      hide RefreshesKnownDeck, OpenedScreen;
      var preserve := RefreshesKnownDeck(Model(), draftDeckId);
      OpenScreen(draftDeckId, heroCardId);
      StartListing(preserve);
    }

    method ListSnapshotCard(cardId: CardId)
      modifies this
      ensures seen == old(seen)
      ensures Model() == SnapshotCard(old(Model()), cardId)
    {
      snapshot := snapshot.(mode := GameMode.Arena);
      if IsRealCardId(cardId) {
        var already: U8 := if cardId in occurrences then occurrences[cardId] else 0;
        occurrences := occurrences[cardId := SaturatingNext(already)];
        var prior := if priorCounts.Some? && cardId in priorCounts.value then priorCounts.value[cardId] else 1;
        deckCounts := deckCounts[cardId := Max(prior, occurrences[cardId])];
      }
    }

    method CompleteDeckSnapshot()
      modifies this
      ensures seen == old(seen)
      ensures Model() == SnapshotCompleted(old(Model()))
    {
      snapshot := snapshot.(run := snapshot.run.(deckSnapshotComplete := true));
      priorCounts := None;
      occurrences := map[];
      if configuredSlots.None? && inferredSlots.None? {
        var observed := SaturatingSlotTotal(deckCounts);
        inferredSlots := Some(observed);
      }
    }

    method OpenOfferPhase(phase: DraftPhase)
      requires phase.AcceptsCardOffers()
      modifies this`snapshot
      ensures Model() == EnterOfferPhase(old(Model()), phase)
    {
      var draft := snapshot.draft.(phasePickCount := 0, currentOffer := None, offers := [], selected := None);
      var run := snapshot.run.(deckSnapshotComplete := false);
      if phase.Redrafting? {
        snapshot := snapshot.(run := run, draft := draft.(exactPhaseProgress := true));
        BeginRedraftWithProgress(true);
      } else {
        snapshot := snapshot.(run := run, draft := draft.(redraft := NO_REDRAFT));
      }
      draft := snapshot.draft;
      snapshot := snapshot.(draft := draft.(pickNumber := if draft.exactPhaseProgress then 1 else 0));
    }

    method CloseDeckEditor(observed: U16, previous: DraftPhase)
      requires observed == SlotCount(deckCounts)
      modifies this`snapshot, this`inferredSlots
      ensures Model() == DeckEditorClosed(old(Model()), previous)
    {
      var draft := snapshot.draft;
      if previous.Redrafting? {
        draft := draft.(redraft := draft.redraft.(stage := RedraftStage.Complete));
      }
      if configuredSlots.None? && !previous.Redrafting? {
        inferredSlots := Some(observed);
      }
      var expected := if configuredSlots.Some? then configuredSlots else inferredSlots;
      var run := snapshot.run.(deckSnapshotComplete := expected.Some? && expected.value == observed);
      snapshot := snapshot.(draft := draft, run := run);
    }

    method ChangeDraftMode(mode: string)
      modifies this
      ensures seen == old(seen)
      ensures Model() == DraftMode(old(Model()), mode)
    {
      var phase := DraftPhase.FromLog(mode);
      var previous := snapshot.run.draftPhase;
      snapshot := snapshot.(
        mode := GameMode.Arena, run := snapshot.run.(draftMode := Some(mode), draftPhase := phase));
      if phase.AcceptsCardOffers() && previous != phase {
        OpenOfferPhase(phase);
      }
      var observed := SaturatingSlotTotal(deckCounts);
      if phase.ActiveDeck? && observed > 0 {
        CloseDeckEditor(observed, previous);
      }
    }

    method ChangeZone(entity: nat, cardId: CardId, from: string, to: string)
      modifies this`gameCounts, this`gameEntities
      ensures Model() == ZoneChanged(old(Model()), entity, cardId, from, to)
    {
      if snapshot.game.active && IsRealCardId(cardId) {
        var fromDeck, toDeck := IsDeckZone(from), IsDeckZone(to);
        if fromDeck && !toDeck && (entity in gameEntities ==> gameEntities[entity].inDeck) {
          RemoveGameDeckCard(cardId);
        } else if !fromDeck && toDeck && (entity in gameEntities ==> !gameEntities[entity].inDeck) {
          gameCounts := gameCounts[cardId := Count(gameCounts, cardId) + 1];
        }
        if fromDeck != toDeck {
          gameEntities := gameEntities[entity := GameDeckEntity(cardId, toDeck)];
        }
      }
    }

    method RemoveGameDeckCard(cardId: CardId)
      modifies this`gameCounts
      ensures gameCounts == RemoveOne(old(gameCounts), cardId)
    {
      if cardId !in gameCounts {
        assert gameCounts - {cardId} == gameCounts;
        return;
      }
      var count := if gameCounts[cardId] > 0 then gameCounts[cardId] - 1 else 0;
      gameCounts := gameCounts[cardId := count];
      if count == 0 {
        gameCounts := gameCounts - {cardId};
      }
    }

    method ShowOffer(
      pickNumber: Option<U8>, kind: OfferKind, items: seq<OfferItem>, confidence: real, source: OfferSource)
      modifies this`snapshot
      ensures Model() == Offer(old(Model()), pickNumber, kind, items, confidence, source)
    {
      var valid := ValidItems(items);
      if valid != [] {
        var number: U8 := 0;
        if pickNumber.Some? {
          number := pickNumber.value;
        } else if snapshot.draft.exactPhaseProgress {
          number := SaturatingNext(snapshot.draft.phasePickCount);
        }
        snapshot := snapshot.(draft := snapshot.draft.(pickNumber := number));
        snapshot := snapshot.(draft := snapshot.draft.(offers := CardOffers(valid, confidence, source)));
        snapshot := snapshot.(draft := snapshot.draft.(
          currentOffer := Some(CurrentOffer(kind, number, valid, confidence, source)), selected := None));
      }
    }

    method CountPhasePick()
      modifies this`snapshot
      ensures Model() == WithDraft(old(Model()), CountPick(old(snapshot).draft, old(snapshot).run.draftPhase))
    {
      if snapshot.run.draftPhase.AcceptsCardOffers() {
        var draft := snapshot.draft.(
          phasePickCount := SaturatingNext(snapshot.draft.phasePickCount), currentOffer := None, offers := []);
        draft := draft.(pickNumber := draft.NextPickNumber());
        if snapshot.run.draftPhase.Redrafting? {
          draft := draft.(redraft := draft.redraft.(pickRoundsCompleted := draft.phasePickCount));
          snapshot := snapshot.(draft := draft);
          AdvanceRedraftAfterPick();
        } else {
          snapshot := snapshot.(draft := draft);
        }
      }
    }

    method TakePick(cardId: CardId)
      requires !IgnoresPick(Model(), cardId)
      modifies this
      ensures seen == old(seen)
      ensures Model() == Pick(old(Model()), cardId)
    {
      var draft := snapshot.draft.(selected := Some(cardId), selections := snapshot.draft.selections + [cardId]);
      snapshot := snapshot.(mode := GameMode.Arena, draft := draft);
      CountPhasePick();
      var afterResync := snapshot.run.stateOrigin.AuthoritativeResync? && snapshot.run.draftPhase.AcceptsCardOffers();
      if !snapshot.run.deckSnapshotComplete || afterResync {
        AddOne(cardId);
        if afterResync {
          snapshot := snapshot.(run := snapshot.run.(deckSnapshotComplete := false));
        }
      }
    }

    method OpenGame()
      modifies this`snapshot, this`gameCounts, this`gameEntities
      ensures Model() == StartGame(old(Model()))
    {
      if !snapshot.game.active {
        gameCounts, gameEntities := deckCounts, map[];
        var size := SaturatingSlotTotal(gameCounts);
        snapshot := snapshot.(game := snapshot.game.(active := true, result := None, initialDeckSize := size));
      }
    }

    // Events.

    method ApplyRedraftReview(event: GameEvent)
      requires IsReviewRecord(event)
      modifies this`snapshot
      ensures Model() == Mutate(old(Model()), event)
    {
      var redraft := snapshot.draft.redraft;
      match event {
        case ArenaRedraftDiscardReviewStarted =>
          if redraft.stage.AwaitingDiscardReview? {
            redraft := redraft.(stage := ReviewingDiscards);
            snapshot := snapshot.(draft := snapshot.draft.(
              redraft := redraft, currentOffer := None, offers := [], selected := None));
          }
        case ArenaRedraftDiscardSelected(cardId) =>
          if IsRealCardId(cardId) && redraft.stage.ReviewingDiscards? {
            if redraft.discardCountRequired.None?
               || |redraft.discardedCardIds| < redraft.discardCountRequired.value {
              redraft := redraft.(discardedCardIds := redraft.discardedCardIds + [cardId]);
              snapshot := snapshot.(draft := snapshot.draft.(redraft := redraft));
            }
          }
        case ArenaRedraftDiscardSelectionsReplaced(cardIds) =>
          if redraft.stage.ReviewingDiscards? && (forall id | id in cardIds :: IsRealCardId(id))
             && redraft.discardCountRequired.Some? && |cardIds| <= redraft.discardCountRequired.value {
            redraft := redraft.(discardedCardIds := cardIds);
            snapshot := snapshot.(draft := snapshot.draft.(redraft := redraft));
          }
        case ArenaRedraftDiscardReviewCompleted =>
          if redraft.stage.ReviewingDiscards? && redraft.discardCountRequired.Some?
             && |redraft.discardedCardIds| == redraft.discardCountRequired.value {
            redraft := redraft.(stage := RedraftStage.Complete);
            snapshot := snapshot.(draft := snapshot.draft.(redraft := redraft));
          }
      }
    }

    method ApplyDeckRecord(event: GameEvent) returns (done: bool)
      requires IsDeckRecord(event)
      modifies this`deckCounts, this`deckEntities
      ensures done == Ignores(old(Model()), event)
      ensures Model() == if done then old(Model()) else Mutate(old(Model()), event)
    {
      match event {
        case DeckList(cardIds) =>
          deckCounts, deckEntities := map[], map[];
          AddEach(cardIds);
        case DeckCardSeen(entity, cardId) =>
          if !IsRealCardId(cardId) {
            return true;
          }
          if entity.Some? {
            if entity.value in deckEntities {
              return true;
            }
            deckEntities := deckEntities[entity.value := cardId];
          }
          AddOne(cardId);
        case CardRevealed(entity, cardId, zone) =>
          if zone.Some? && IsDeckZone(zone.value) && IsRealCardId(cardId) && entity !in deckEntities {
            deckEntities := deckEntities[entity := cardId];
            AddOne(cardId);
          }
      }
      return false;
    }

    method ApplyRunRecord(event: GameEvent)
      requires IsRunRecord(event)
      modifies this
      ensures seen == old(seen)
      ensures Model() == Mutate(old(Model()), event)
    {
      match event {
        case ArenaRunStarted(draftDeckId) => BeginNewArenaRun(draftDeckId);
        case ArenaAuthoritativeResync(draftDeckId, hero, cardIds, mode) =>
          HydrateFromSnapshot(draftDeckId, hero, cardIds, mode);
        case ArenaDeckSnapshotStarted(draftDeckId, hero) => StartDeckSnapshot(draftDeckId, hero);
        case ArenaDeckSnapshotCard(cardId) => ListSnapshotCard(cardId);
        case ArenaDeckSnapshotCompleted => CompleteDeckSnapshot();
        case ArenaDraftMode(mode) => ChangeDraftMode(mode);
      }
    }

    method ApplyGameRecord(event: GameEvent)
      requires IsGameRecord(event)
      modifies this
      ensures seen == old(seen)
      ensures Model() == Mutate(old(Model()), event)
    {
      match event {
        case FriendlyCardZoneChanged(entity, cardId, from, to) => ChangeZone(entity, cardId, from, to);
        case GameStarted => OpenGame();
        case GameEnded(result) =>
          snapshot := snapshot.(game := snapshot.game.(active := false, result := Some(result)));
      }
    }

    method ApplyPlainRecord(event: GameEvent) returns (done: bool)
      requires !IsDeckRecord(event) && !IsRunRecord(event) && !IsGameRecord(event) && !IsReviewRecord(event)
      modifies this
      ensures seen == old(seen)
      ensures done == Ignores(old(Model()), event)
      ensures Model() == if done then old(Model()) else Mutate(old(Model()), event)
    {
      match event {
        case GameModeSeen(raw) => snapshot := snapshot.(mode := GameMode.FromLog(raw));
        case HeroClassSeen(raw) => snapshot := snapshot.(heroClass := HeroClass.FromLog(raw));
        case HeroCard(cardId) => snapshot := snapshot.(heroClass := HeroClass.OfHeroCard(cardId));
        case ArenaOffer(pickNumber, kind, items, confidence, source) =>
          ShowOffer(pickNumber, kind, items, confidence, source);
        case ArenaPick(cardId) =>
          if IgnoresPick(Model(), cardId) {
            return true;
          }
          TakePick(cardId);
      }
      return false;
    }

    method ApplyRecord(event: GameEvent) returns (done: bool)
      modifies this
      ensures seen == old(seen)
      ensures done == Ignores(old(Model()), event)
      ensures Model() == if done then old(Model()) else Mutate(old(Model()), event)
    {
      done := false;
      if IsDeckRecord(event) {
        done := ApplyDeckRecord(event);
      } else if IsRunRecord(event) {
        ApplyRunRecord(event);
      } else if IsGameRecord(event) {
        ApplyGameRecord(event);
      } else if IsReviewRecord(event) {
        ApplyRedraftReview(event);
      } else {
        done := ApplyPlainRecord(event);
      }
    }

    method Apply(event: GameEvent)
      modifies this
      ensures seen == old(seen)
      ensures Model() == ReducerSpec.Apply(old(Model()), event)
    {
      var done := ApplyRecord(event);
      if done {
        return;
      }
      SyncProjections();
    }

    method ApplyEach(events: seq<GameEvent>)
      modifies this
      ensures seen == old(seen)
      ensures Model() == ApplyAll(old(Model()), events)
    {
      for i := 0 to |events|
        invariant ApplyAll(Model(), events[i..]) == ApplyAll(old(Model()), events)
        invariant seen == old(seen)
      {
        assert events[i..][1..] == events[i + 1..];
        Apply(events[i]);
      }
    }

    method RecordObservation(source: EventSource, id: CardId)
      modifies this`observations
      ensures observations == RecordCard(old(observations), source, id)
    {
      hide IsRealCardId;
      if IsRealCardId(id) {
        var sources := if id in observations then observations[id] else [];
        if |sources| == MAX_SOURCES_PER_CARD {
          sources := sources[1..];
        }
        observations := observations[id := sources + [source]];
      }
    }

    method RecordCardObservations(source: EventSource, event: GameEvent)
      modifies this`observations
      ensures observations == RecordCards(old(observations), source, ObservedCards(event))
    {
      hide RecordCard, ObservedCards;
      var ids := ObservedCards(event);
      for i := 0 to |ids|
        invariant RecordCards(observations, source, ids[i..]) == RecordCards(old(observations), source, ids)
      {
        assert ids[i..][1..] == ids[i + 1..];
        RecordObservation(source, ids[i]);
      }
    }

    method ApplySourcedLine(source: EventSource, events: seq<GameEvent>)
      modifies this
      ensures State() == ReducerSpec.ApplySourcedLine(old(State()), source, events)
    {
      if events == [] || source in seen {
        return;
      }
      seen := seen + {source};
      for i := 0 to |events|
        invariant RecordEvents(observations, source, events[i..]) == RecordEvents(old(observations), source, events)
        invariant Model() == old(Model()).(observations := observations) && seen == old(seen) + {source}
      {
        assert events[i..][1..] == events[i + 1..];
        RecordCardObservations(source, events[i]);
      }
      ApplyEach(events);
    }

    method SetExpectedDeckSlots(slots: Option<U16>)
      modifies this`snapshot, this`configuredSlots
      ensures Model() == SetExpectedSlots(old(Model()), slots)
    {
      configuredSlots := slots;
      SyncDeckProjection();
    }

    method SetRedraftPolicy(newPolicy: Option<RedraftPolicy>) returns (accepted: bool)
      modifies this`snapshot, this`policy
      ensures accepted <==> newPolicy.Some? ==> newPolicy.value.Valid()
      ensures Model() == SetPolicy(old(Model()), newPolicy)
    {
      if newPolicy.Some? && (newPolicy.value.pickRounds == 0 || newPolicy.value.discardCount == 0) {
        return false;
      }
      policy := newPolicy;
      SyncPolicy();
      SyncDeckProjection();
      return true;
    }

    /** A corrected offer: its items, then the draft phase, then its kind decide; the pick number is the reducer's own. */
    method ApplyManualOffer(kind: OfferKind, items: seq<OfferItem>) returns (r: Result<(), ManualError>)
      modifies this
      ensures seen == old(seen)
      ensures Model() == ApplyManual(old(Model()), ReplaceOffer(kind, items))
      ensures r == Outcome(ManualEvent(old(Model()), ReplaceOffer(kind, items)))
    {
      hide ReducerSpec.Apply;
      if items == [] {
        return Err(EmptyOffer);
      }
      var invalid := FirstInvalidItem(items, 0);
      if invalid.Some? {
        return Err(InvalidOfferItem(invalid.value));
      }
      var phase, redraft := snapshot.run.draftPhase, snapshot.draft.redraft;
      if phase.Drafting? {
        if kind.RedraftPick? {
          return Err(InvalidOfferKindForPhase(phase, kind));
        }
      } else if phase.Redrafting? {
        var open := redraft.pickProgressKnown && redraft.stage.PickingOffers? && redraft.pickRoundsRequired.Some?;
        if !open || redraft.pickRoundsCompleted >= redraft.pickRoundsRequired.value {
          return Err(RedraftOfferCaptureWithheld(redraft.stage));
        }
        if !kind.RedraftPick? {
          return Err(InvalidOfferKindForPhase(phase, kind));
        }
      } else {
        return Err(NotInDraftPhase(phase));
      }
      var number: U8 := 0;
      if snapshot.draft.exactPhaseProgress {
        number := SaturatingNext(snapshot.draft.phasePickCount);
      }
      Apply(ArenaOffer(Some(number), kind, items, 1.0, Manual));
      return Ok(());
    }

    method SetManualDiscards(ids: seq<CardId>) returns (r: Result<(), ManualError>)
      modifies this
      ensures seen == old(seen)
      ensures Model() == ApplyManual(old(Model()), SetDiscardSelections(ids))
      ensures r == Outcome(ManualEvent(old(Model()), SetDiscardSelections(ids)))
    {
      var redraft := snapshot.draft.redraft;
      if !redraft.stage.ReviewingDiscards? {
        return Err(DiscardReviewNotReady(redraft.stage));
      }
      if redraft.discardCountRequired.None? {
        return Err(DiscardCountUnknown);
      }
      var required := redraft.discardCountRequired.value;
      if |ids| > required {
        return Err(TooManyDiscards(required, |ids|));
      }
      var unreal := FirstUnrealCard(ids, 0);
      if unreal.Some? {
        return Err(InvalidDiscardCard(unreal.value));
      }
      Apply(ArenaRedraftDiscardSelectionsReplaced(ids));
      return Ok(());
    }

    method CompleteManualReview() returns (r: Result<(), ManualError>)
      modifies this
      ensures seen == old(seen)
      ensures Model() == ApplyManual(old(Model()), CompleteDiscardReview)
      ensures r == Outcome(ManualEvent(old(Model()), CompleteDiscardReview))
    {
      var redraft := snapshot.draft.redraft;
      if !redraft.stage.ReviewingDiscards? {
        return Err(DiscardReviewNotReady(redraft.stage));
      }
      if redraft.discardCountRequired.None? {
        return Err(DiscardCountUnknown);
      }
      var required, selected := redraft.discardCountRequired.value, |redraft.discardedCardIds|;
      if selected != required {
        return Err(IncompleteDiscardSelection(required, selected));
      }
      Apply(ArenaRedraftDiscardReviewCompleted);
      return Ok(());
    }

    method ApplyManualAction(action: ManualAction) returns (r: Result<(), ManualError>)
      modifies this
      ensures seen == old(seen)
      ensures Model() == ApplyManual(old(Model()), action)
      ensures r == Outcome(ManualEvent(old(Model()), action))
    {
      match action {
        case ReplaceOffer(kind, items) =>
          r := ApplyManualOffer(kind, items);
        case BeginDiscardReview =>
          var stage := snapshot.draft.redraft.stage;
          if !stage.AwaitingDiscardReview? {
            return Err(DiscardReviewNotReady(stage));
          }
          Apply(ArenaRedraftDiscardReviewStarted);
          return Ok(());
        case SetDiscardSelections(ids) =>
          r := SetManualDiscards(ids);
        case CompleteDiscardReview =>
          r := CompleteManualReview();
      }
    }

    method TakeCheckpoint() returns (c: Checkpoint)
      ensures c == CheckpointOf(Model()) && Rebuilt(c) == Model()
    {
      c := Checkpoint(snapshot, deckCounts, priorCounts, occurrences, deckEntities, gameCounts, gameEntities,
                      observations, configuredSlots, inferredSlots, policy);
    }

    static method FromCheckpoint(c: Checkpoint) returns (r: Result<ArenaReducer, RestoreError>)
      ensures r.Ok? ==> fresh(r.value) && Restore(c) == Ok(r.value.Model()) && r.value.seen == {}
      ensures r.Err? ==> Restore(c) == Err(r.error)
    {
      var defect := Defect(c);
      if defect.Some? {
        return Err(defect.value);
      }
      var reducer := new ArenaReducer.FromModel(Rebuilt(c));
      reducer.SyncProjections();
      if reducer.snapshot != c.snapshot {
        return Err(SnapshotMismatch);
      }
      return Ok(reducer);
    }
  }
}
