/** Conservation of the in-game deck: what leaves, what comes back, and what never changes. */
module GameDeck {
  import opened Prelude
  import opened Ordered
  import opened ArenaState
  import opened ReducerSpec
  import opened ReducerFrames

  predicate InGame(s: ReducerState) {
    s.snapshot.game.active
  }

  /** The game is still running after every event. */
  ghost predicate StaysInGame(s: ReducerState, events: seq<GameEvent>)
    decreases events
  {
    events == [] || (InGame(Apply(s, events[0])) && StaysInGame(Apply(s, events[0]), events[1..]))
  }

  predicate Exits(s: ReducerState, event: GameEvent) {
    event.FriendlyCardZoneChanged? && IsDeckExit(s, event.entityId, event.cardId, event.from, event.to)
  }

  predicate Enters(s: ReducerState, event: GameEvent) {
    event.FriendlyCardZoneChanged? && IsDeckEntry(s, event.entityId, event.cardId, event.from, event.to)
  }

  /** An exit that finds a copy to remove. */
  predicate RemovesCopy(s: ReducerState, event: GameEvent) {
    Exits(s, event) && Count(s.gameCounts, event.cardId) > 0
  }

  ghost function Tally(s: ReducerState, events: seq<GameEvent>, hit: (ReducerState, GameEvent) -> bool): nat
    decreases events
  {
    if events == [] then 0
    else (if hit(s, events[0]) then 1 else 0) + Tally(Apply(s, events[0]), events[1..], hit)
  }

  lemma RemoveOneTotal(counts: map<CardId, nat>, id: CardId)
    ensures Total(RemoveOne(counts, id)) == Total(counts) - (if Count(counts, id) > 0 then 1 else 0)
  {
    if id in counts {
      TotalRemove(counts, id);
      if counts[id] > 1 {
        TotalUpdate(counts, id, counts[id] - 1);
      }
    } else {
      assert counts - {id} == counts;
    }
  }

  lemma ZoneApplied(s: ReducerState, event: GameEvent)
    requires event.FriendlyCardZoneChanged?
    ensures var r := Apply(s, event);
      var z := ZoneChanged(s, event.entityId, event.cardId, event.from, event.to);
      && r.gameCounts == z.gameCounts && r.gameEntities == z.gameEntities && r.deckCounts == s.deckCounts
      && InGame(r) == InGame(s) && r.snapshot.game.initialDeckSize == s.snapshot.game.initialDeckSize
  {
    hide IsRealCardId, IsDeckZone, RemoveOne, DeckCards, CompletenessOf;
  }

  lemma ZoneChangeEffect(s: ReducerState, event: GameEvent)
    requires event.FriendlyCardZoneChanged?
    ensures var r := Apply(s, event);
      && Total(r.gameCounts) + (if RemovesCopy(s, event) then 1 else 0)
           == Total(s.gameCounts) + (if Enters(s, event) then 1 else 0)
      && r.deckCounts == s.deckCounts && InGame(r) == InGame(s)
      && r.snapshot.game.initialDeckSize == s.snapshot.game.initialDeckSize
  {
    hide IsRealCardId, IsDeckZone, ReducerSpec.Apply, RemoveOne;
    ZoneApplied(s, event);
    RemoveOneTotal(s.gameCounts, event.cardId);
    TotalUpdate(s.gameCounts, event.cardId, Count(s.gameCounts, event.cardId) + 1);
  }

  lemma OtherEventKeepsGame(s: ReducerState, event: GameEvent)
    requires InGame(s) && InGame(Apply(s, event)) && !event.FriendlyCardZoneChanged?
    ensures var r := Apply(s, event);
      && r.gameCounts == s.gameCounts && r.gameEntities == s.gameEntities
      && r.snapshot.game.initialDeckSize == s.snapshot.game.initialDeckSize
  {
    if !Ignores(s, event) {
      var r := Mutate(s, event);
      assert Sync(r).snapshot.game.(remainingDeck := []) == r.snapshot.game.(remainingDeck := []);
      if IsRunRecord(event) {
        RunRecordKeepsGame(s, event);
      } else {
        PlainRecordKeepsGame(s, event);
      }
    }
  }

  /** Nothing the game tables record has changed. */
  predicate SameGame(s: ReducerState, r: ReducerState) {
    r.gameCounts == s.gameCounts && r.gameEntities == s.gameEntities && r.snapshot.game == s.snapshot.game
  }

  lemma RunRecordKeepsGame(s: ReducerState, event: GameEvent)
    requires InGame(s) && IsRunRecord(event) && InGame(Mutate(s, event))
    ensures SameGame(s, Mutate(s, event))
  {
    hide DraftMode, Resync, HeroClass.OfHeroCard, SnapshotCard, SnapshotCompleted;
    match event
    case ArenaRunStarted(id) =>
    case ArenaAuthoritativeResync(id, hero, ids, mode) => ResyncEndsGame(s, id, hero, ids, mode);
    case ArenaDeckSnapshotStarted(id, hero) =>
    case ArenaDeckSnapshotCard(id) => SnapshotCardTouches(s, id);
    case ArenaDeckSnapshotCompleted => SnapshotCompletedTouches(s);
    case ArenaDraftMode(mode) => DraftModeKeepsGame(s, mode);
  }

  lemma ResyncEndsGame(s: ReducerState, id: string, hero: Option<CardId>, ids: seq<CardId>, mode: Option<string>)
    ensures !InGame(Resync(s, id, hero, ids, mode))
  {
    hide DraftPhase.FromLog, HeroClass.OfHeroCard, SlotCount, BeginRedraft;
  }

  lemma DraftModeKeepsGame(s: ReducerState, mode: string)
    ensures SameGame(s, DraftMode(s, mode))
  {
    hide DraftPhase.FromLog, SlotCount, EnterOfferPhase, DeckEditorClosed;
    var phase := DraftPhase.FromLog(mode);
    var noted := s.(snapshot := s.snapshot.(
      mode := GameMode.Arena, run := s.snapshot.run.(draftMode := Some(mode), draftPhase := phase)));
    EnterOfferPhaseKeepsGame(noted, phase);
    DeckEditorClosedKeepsGame(noted, s.snapshot.run.draftPhase);
  }

  lemma EnterOfferPhaseKeepsGame(s: ReducerState, phase: DraftPhase)
    ensures SameGame(s, EnterOfferPhase(s, phase))
  {
    hide BeginRedraft;
  }

  lemma DeckEditorClosedKeepsGame(s: ReducerState, previous: DraftPhase)
    ensures SameGame(s, DeckEditorClosed(s, previous))
  {
    hide SlotCount;
  }

  lemma OfferKeepsGame(
    s: ReducerState, number: Option<U8>, kind: OfferKind, items: seq<OfferItem>, confidence: real, source: OfferSource)
    ensures SameGame(s, Offer(s, number, kind, items, confidence, source))
  {
    hide ValidItems, CardOffers;
  }

  lemma PlainRecordKeepsGame(s: ReducerState, event: GameEvent)
    requires InGame(s) && !IsRunRecord(event) && !event.FriendlyCardZoneChanged? && !event.GameEnded?
    ensures SameGame(s, Mutate(s, event))
  {
    if IsReviewRecord(event) {
      hide Mutate;
      ReviewTouchesDraft(s, event);
    } else if IsDeckRecord(event) {
      hide Mutate;
      DeckRecordTouchesDeck(s, event);
    } else {
      ScreenRecordKeepsGame(s, event);
    }
  }

  lemma ScreenRecordKeepsGame(s: ReducerState, event: GameEvent)
    requires InGame(s) && !IsRunRecord(event) && !IsDeckRecord(event) && !IsReviewRecord(event)
    requires !event.FriendlyCardZoneChanged? && !event.GameEnded?
    ensures SameGame(s, Mutate(s, event))
  {
    hide HeroClass.OfHeroCard, HeroClass.FromLog, GameMode.FromLog, Pick, Offer;
    match event
    case ArenaPick(id) => PickTouches(s, id);
    case ArenaOffer(number, kind, items, confidence, source) =>
      OfferKeepsGame(s, number, kind, items, confidence, source);
    case _ =>
  }

  lemma {:induction false} GameBalance(s: ReducerState, events: seq<GameEvent>)
    requires InGame(s) && StaysInGame(s, events)
    ensures var r := ApplyAll(s, events);
      && Total(r.gameCounts) + Tally(s, events, RemovesCopy) == Total(s.gameCounts) + Tally(s, events, Enters)
      && r.snapshot.game.initialDeckSize == s.snapshot.game.initialDeckSize
    decreases events
  {
    hide ReducerSpec.Apply;
    if events != [] {
      if events[0].FriendlyCardZoneChanged? {
        ZoneChangeEffect(s, events[0]);
      } else {
        OtherEventKeepsGame(s, events[0]);
      }
      GameBalance(Apply(s, events[0]), events[1..]);
    }
  }

  lemma {:induction false} RemovalsAreExits(s: ReducerState, events: seq<GameEvent>)
    ensures Tally(s, events, RemovesCopy) <= Tally(s, events, Exits)
    decreases events
  {
    hide ReducerSpec.Apply;
    if events != [] {
      RemovalsAreExits(Apply(s, events[0]), events[1..]);
    }
  }

  /** From the start of a game to any later point of it: the remaining deck is the constructed deck minus the
      exits that found a copy plus the entries. */
  lemma RemainingDeckConserved(s: ReducerState, events: seq<GameEvent>)
    requires !InGame(s) && StaysInGame(Apply(s, GameStarted), events)
    ensures var start := Apply(s, GameStarted);
      var remaining := Total(ApplyAll(start, events).gameCounts);
      var exits, entries := Tally(start, events, Exits), Tally(start, events, Enters);
      && remaining == Total(s.deckCounts) + entries - Tally(start, events, RemovesCopy)
      && Total(s.deckCounts) + entries - exits <= remaining <= Total(s.deckCounts) + entries
      && (Tally(start, events, RemovesCopy) == exits ==> remaining == Total(s.deckCounts) + entries - exits)
      && ApplyAll(start, events).snapshot.game.initialDeckSize == SlotCount(s.deckCounts)
  {
    var start := Apply(s, GameStarted);
    assert start.gameCounts == s.deckCounts;
    assert start.snapshot.game.initialDeckSize == SlotCount(s.deckCounts);
    GameBalance(start, events);
    RemovalsAreExits(start, events);
  }

  /** Zone lines never touch the constructed deck, and repeating one changes nothing at all. */
  lemma ZoneLineIdempotent(s: ReducerState, event: GameEvent)
    requires event.FriendlyCardZoneChanged?
    ensures Apply(Apply(s, event), event) == Apply(s, event)
    ensures Apply(s, event).deckCounts == s.deckCounts
    ensures Apply(s, event).snapshot.deck == DeckCards(s.deckCounts)
  {
    hide IsRealCardId, IsDeckZone;
    var once := Apply(s, event);
    assert once == Sync(ZoneChanged(s, event.entityId, event.cardId, event.from, event.to));
    ZoneChangedSettles(s, event);
    assert CompletenessOf(once) == CompletenessOf(ZoneChanged(s, event.entityId, event.cardId, event.from, event.to));
    assert Sync(once) == once;
  }

  lemma ZoneChangedSettles(s: ReducerState, event: GameEvent)
    requires event.FriendlyCardZoneChanged?
    ensures var r := Sync(ZoneChanged(s, event.entityId, event.cardId, event.from, event.to));
      ZoneChanged(r, event.entityId, event.cardId, event.from, event.to) == r
  {
    hide IsRealCardId, IsDeckZone, DeckCards, CompletenessOf;
    var first := ZoneChanged(s, event.entityId, event.cardId, event.from, event.to);
    assert first.snapshot == s.snapshot;
    assert Sync(first).snapshot.game.active == s.snapshot.game.active;
    assert Sync(first).gameEntities == first.gameEntities;
  }

  // Per-entity alternation.

  /** The accepted crossings of one entity, true for an entry into the deck. */
  ghost function Crossings(s: ReducerState, events: seq<GameEvent>, entity: nat): seq<bool>
    decreases events
  {
    if events == [] then []
    else
      var event := events[0];
      (if Exits(s, event) && event.entityId == entity then [false]
       else if Enters(s, event) && event.entityId == entity then [true]
       else [])
      + Crossings(Apply(s, event), events[1..], entity)
  }

  predicate Alternates(crossings: seq<bool>) {
    forall i | 0 <= i < |crossings| - 1 :: crossings[i] != crossings[i + 1]
  }

  /** The first crossing leaves the side the entity is known to be on. */
  lemma {:induction false} CrossingsFollowEntity(s: ReducerState, events: seq<GameEvent>, entity: nat)
    requires InGame(s) && StaysInGame(s, events)
    ensures Alternates(Crossings(s, events, entity))
    ensures Crossings(s, events, entity) != [] && entity in s.gameEntities ==>
      Crossings(s, events, entity)[0] != s.gameEntities[entity].inDeck
    decreases events
  {
    hide ReducerSpec.Apply;
    if events != [] {
      var event := events[0];
      var r := Apply(s, event);
      CrossingsFollowEntity(r, events[1..], entity);
      if event.FriendlyCardZoneChanged? {
        CrossingRecorded(s, event);
      } else {
        OtherEventKeepsGame(s, event);
      }
    }
  }

  lemma CrossingRecorded(s: ReducerState, event: GameEvent)
    requires event.FriendlyCardZoneChanged?
    ensures var r := Apply(s, event);
      && (Exits(s, event) ==> event.entityId in r.gameEntities && !r.gameEntities[event.entityId].inDeck)
      && (Enters(s, event) ==> event.entityId in r.gameEntities && r.gameEntities[event.entityId].inDeck)
      && (forall other | other != event.entityId && other in s.gameEntities ::
            other in r.gameEntities && r.gameEntities[other] == s.gameEntities[other])
      && (event.entityId in s.gameEntities && !Exits(s, event) && !Enters(s, event) ==>
            event.entityId in r.gameEntities
            && r.gameEntities[event.entityId].inDeck == s.gameEntities[event.entityId].inDeck)
  {
    hide IsRealCardId, IsDeckZone, ReducerSpec.Apply, RemoveOne;
    ZoneApplied(s, event);
  }

  /** In one game the accepted exits and entries of every entity strictly alternate. */
  lemma DeckCrossingsAlternate(s: ReducerState, events: seq<GameEvent>, entity: nat)
    requires !InGame(s) && StaysInGame(Apply(s, GameStarted), events)
    ensures Alternates(Crossings(Apply(s, GameStarted), events, entity))
  {
    CrossingsFollowEntity(Apply(s, GameStarted), events, entity);
  }
}
