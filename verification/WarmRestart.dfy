/** A reducer restored from its checkpoint is accepted and behaves like the one that never stopped. */
module WarmRestart {
  import opened Prelude
  import opened Text
  import opened ArenaState
  import opened ReducerSpec
  import opened ReducerFrames
  import opened ReducerCheckpoint
  import opened Reducer

  // What every reachable reducer satisfies.

  predicate BoundedProvenance(table: Observations) {
    forall id | id in table :: IsRealCardId(id) && |table[id]| <= MAX_SOURCES_PER_CARD
  }

  predicate NamedProvenance(table: Observations) {
    forall id | id in table :: forall source | source in table[id] :: NamedSource(source)
  }

  /** The tables hold only real cards, positive counts and bounded provenance. */
  predicate GoodTables(s: ReducerState) {
    && s.snapshot.schemaVersion == SNAPSHOT_SCHEMA_VERSION
    && GoodCounts(s.deckCounts)
    && GoodEntities(s.deckEntities)
    && BoundedProvenance(s.observations)
    && (s.policy.Some? ==> s.policy.value.Valid())
  }

  /** Deck, deck state and remaining deck are exactly what the sync functions recompute. */
  ghost predicate Synced(s: ReducerState) {
    Sync(s) == s
  }

  ghost predicate WellFormed(s: ReducerState) {
    GoodTables(s) && Synced(s)
  }

  lemma SyncSettles(s: ReducerState)
    requires GoodTables(s)
    ensures WellFormed(Sync(s))
  {
    assert CompletenessOf(Sync(s)) == CompletenessOf(s);
  }

  lemma {:induction false} AddCardsKeepsGood(counts: map<CardId, nat>, cardIds: seq<CardId>)
    requires GoodCounts(counts)
    ensures GoodCounts(AddCards(counts, cardIds))
    decreases cardIds
  {
    if cardIds != [] {
      AddCardsKeepsGood(AddCard(counts, cardIds[0]), cardIds[1..]);
    }
  }

  /** Everything `GoodTables` looks at, apart from the deck counts. */
  predicate SameOtherTables(s: ReducerState, r: ReducerState) {
    && r.snapshot.schemaVersion == s.snapshot.schemaVersion
    && r.deckEntities == s.deckEntities && r.observations == s.observations && r.policy == s.policy
  }

  lemma RunRecordKeepsTables(s: ReducerState, event: GameEvent)
    requires GoodTables(s) && IsRunRecord(event)
    ensures GoodTables(Mutate(s, event))
  {
    match event
    case ArenaRunStarted(_) =>
    case ArenaAuthoritativeResync(id, hero, ids, mode) =>
      AddCardsKeepsGood(map[], ids);
      ResyncTables(s, id, hero, ids, mode);
    case ArenaDeckSnapshotStarted(id, hero) => SnapshotStartedTables(s, id, hero);
    case ArenaDeckSnapshotCard(id) => SnapshotCardTables(s, id);
    case ArenaDeckSnapshotCompleted => assert SameOtherTables(s, SnapshotCompleted(s));
    case ArenaDraftMode(mode) => DraftModeTables(s, mode);
  }

  lemma SnapshotStartedTables(s: ReducerState, id: string, hero: Option<CardId>)
    ensures var r := SnapshotStarted(s, id, hero);
      && (r.snapshot.schemaVersion == s.snapshot.schemaVersion || r.snapshot.schemaVersion == SNAPSHOT_SCHEMA_VERSION)
      && r.deckCounts == map[] && r.deckEntities == map[] && r.observations == map[] && r.policy == s.policy
  {
  }

  lemma SnapshotCardTables(s: ReducerState, id: CardId)
    ensures var r := SnapshotCard(s, id);
      && SameOtherTables(s, r)
      && (GoodCounts(s.deckCounts) ==> GoodCounts(r.deckCounts))
  {
    hide SnapshotCard;
    SnapshotCardTouches(s, id);
    if GoodCounts(s.deckCounts) {
      SnapshotCardCounts(s, id);
    }
  }

  lemma SnapshotCardCounts(s: ReducerState, id: CardId)
    requires GoodCounts(s.deckCounts)
    ensures GoodCounts(SnapshotCard(s, id).deckCounts)
  {
  }

  lemma DeckRecordKeepsTables(s: ReducerState, event: GameEvent)
    requires GoodTables(s) && !Ignores(s, event) && IsDeckRecord(event)
    ensures GoodTables(Mutate(s, event))
  {
    match event
    case DeckList(ids) =>
      AddCardsKeepsGood(map[], ids);
      assert GoodEntities(map[]);
    case DeckCardSeen(entity, id) =>
      AddCardsKeepsGood(s.deckCounts, [id]);
      RevealTables(s, if entity.Some? then entity.value else 0, id);
    case CardRevealed(entity, id, _) =>
      if IsRealCardId(id) {
        RevealTables(s, entity, id);
      }
  }

  lemma RevealTables(s: ReducerState, entity: nat, id: CardId)
    requires IsRealCardId(id)
    ensures GoodTables(s) ==> GoodTables(Reveal(s, entity, id))
  {
  }

  lemma HeroTables(s: ReducerState, hero: Option<HeroClass>)
    ensures GoodTables(s) ==> GoodTables(WithHero(s, hero))
  {
  }

  lemma OfferTables(
    s: ReducerState, number: Option<U8>, kind: OfferKind, items: seq<OfferItem>, confidence: real, source: OfferSource)
    ensures GoodTables(s) ==> GoodTables(Offer(s, number, kind, items, confidence, source))
  {
  }

  lemma PickTables(s: ReducerState, id: CardId)
    ensures var r := Pick(s, id);
      SameOtherTables(s, r) && (r.deckCounts == s.deckCounts || r.deckCounts == AddCards(s.deckCounts, [id]))
  {
    hide Pick, AddCard;
    PickTouches(s, id);
    assert AddCards(s.deckCounts, [id]) == AddCards(AddCard(s.deckCounts, id), []);
  }

  lemma GameRecordKeepsTables(s: ReducerState, event: GameEvent)
    requires GoodTables(s) && IsGameRecord(event)
    ensures GoodTables(Mutate(s, event))
  {
  }

  lemma ReviewRecordKeepsTables(s: ReducerState, event: GameEvent)
    requires GoodTables(s) && IsReviewRecord(event)
    ensures GoodTables(Mutate(s, event))
  {
    hide IsRealCardId, GoodCounts, GoodEntities, BoundedProvenance, Mutate;
    ReviewTouchesDraft(s, event);
  }

  lemma PlainRecordKeepsTables(s: ReducerState, event: GameEvent)
    requires GoodTables(s) && !Ignores(s, event)
    requires !IsDeckRecord(event) && !IsRunRecord(event) && !IsGameRecord(event) && !IsReviewRecord(event)
    ensures GoodTables(Mutate(s, event))
  {
    match event
    case ArenaPick(id) =>
      AddCardsKeepsGood(s.deckCounts, [id]);
      PickTables(s, id);
    case ArenaOffer(number, kind, items, confidence, source) =>
      OfferTables(s, number, kind, items, confidence, source);
    case HeroClassSeen(raw) => HeroTables(s, HeroClass.FromLog(raw));
    case HeroCard(id) => HeroTables(s, HeroClass.OfHeroCard(id));
    case GameModeSeen(_) =>
  }

  lemma MutateKeepsTables(s: ReducerState, event: GameEvent)
    requires GoodTables(s) && !Ignores(s, event)
    ensures GoodTables(Mutate(s, event))
  {
    if IsDeckRecord(event) {
      DeckRecordKeepsTables(s, event);
    } else if IsRunRecord(event) {
      RunRecordKeepsTables(s, event);
    } else if IsGameRecord(event) {
      GameRecordKeepsTables(s, event);
    } else if IsReviewRecord(event) {
      ReviewRecordKeepsTables(s, event);
    } else {
      PlainRecordKeepsTables(s, event);
    }
  }

  lemma ResyncTables(s: ReducerState, id: string, hero: Option<CardId>, ids: seq<CardId>, mode: Option<string>)
    ensures var r := Resync(s, id, hero, ids, mode);
      && r.snapshot.schemaVersion == SNAPSHOT_SCHEMA_VERSION && r.deckCounts == AddCards(map[], ids)
      && r.deckEntities == map[] && r.observations == map[] && r.policy == s.policy
  {
  }

  /** A mode line changes no table but the inferred deck size. */
  lemma DraftModeTables(s: ReducerState, mode: string)
    ensures var r := DraftMode(s, mode);
      && r == s.(snapshot := r.snapshot, inferredSlots := r.inferredSlots)
      && r.snapshot.schemaVersion == s.snapshot.schemaVersion
  {
    var phase := DraftPhase.FromLog(mode);
    var noted := s.(snapshot := s.snapshot.(
      mode := GameMode.Arena, run := s.snapshot.run.(draftMode := Some(mode), draftPhase := phase)));
    EnterOfferPhaseTables(noted, phase);
    DeckEditorClosedTables(noted, s.snapshot.run.draftPhase);
  }

  lemma EnterOfferPhaseTables(s: ReducerState, phase: DraftPhase)
    ensures var r := EnterOfferPhase(s, phase);
      r == s.(snapshot := s.snapshot.(run := r.snapshot.run, draft := r.snapshot.draft))
  {
  }

  lemma DeckEditorClosedTables(s: ReducerState, previous: DraftPhase)
    ensures var r := DeckEditorClosed(s, previous);
      r == s.(snapshot := s.snapshot.(run := r.snapshot.run, draft := r.snapshot.draft),
              inferredSlots := r.inferredSlots)
  {
  }

  lemma ApplyKeepsWellFormed(s: ReducerState, event: GameEvent)
    requires WellFormed(s)
    ensures WellFormed(Apply(s, event))
  {
    if !Ignores(s, event) {
      MutateKeepsTables(s, event);
      SyncSettles(Mutate(s, event));
    }
  }

  lemma {:induction false} ApplyAllKeepsWellFormed(s: ReducerState, events: seq<GameEvent>)
    requires WellFormed(s)
    ensures WellFormed(ApplyAll(s, events))
    decreases events
  {
    if events != [] {
      ApplyKeepsWellFormed(s, events[0]);
      ApplyAllKeepsWellFormed(Apply(s, events[0]), events[1..]);
    }
  }

  lemma {:induction false} RecordCardsBounded(table: Observations, source: EventSource, ids: seq<CardId>)
    requires BoundedProvenance(table)
    ensures BoundedProvenance(RecordCards(table, source, ids))
    decreases ids
  {
    if ids != [] {
      RecordCardsBounded(RecordCard(table, source, ids[0]), source, ids[1..]);
    }
  }

  lemma {:induction false} RecordEventsBounded(table: Observations, source: EventSource, events: seq<GameEvent>)
    requires BoundedProvenance(table)
    ensures BoundedProvenance(RecordEvents(table, source, events))
    decreases events
  {
    if events != [] {
      var ids := ObservedCards(events[0]);
      RecordCardsBounded(table, source, ids);
      RecordEventsBounded(RecordCards(table, source, ids), source, events[1..]);
    }
  }

  lemma ConfigureKeepsWellFormed(s: ReducerState, policy: Option<RedraftPolicy>)
    requires WellFormed(s)
    ensures WellFormed(SetPolicy(s, policy))
  {
    var t := SyncRedraftPolicy(s.(policy := policy));
    assert SyncDeck(t).snapshot.game == s.snapshot.game;
    assert CompletenessOf(SyncDeck(t)) == CompletenessOf(t);
  }

  lemma ConsumeKeepsWellFormed(s: ReducerState, source: EventSource, events: seq<GameEvent>)
    requires WellFormed(s)
    ensures WellFormed(ConsumeLine(s, source, events))
  {
    RecordEventsBounded(s.observations, source, events);
    var noted := s.(observations := RecordEvents(s.observations, source, events));
    assert CompletenessOf(noted) == CompletenessOf(s);
    ApplyAllKeepsWellFormed(noted, events);
  }

  lemma ExpectKeepsWellFormed(s: ReducerState, slots: Option<U16>)
    requires WellFormed(s)
    ensures WellFormed(SetExpectedSlots(s, slots))
  {
    assert CompletenessOf(SetExpectedSlots(s, slots)) == CompletenessOf(s.(configuredSlots := slots));
  }

  lemma PerformKeepsWellFormed(t: Tracked, op: Operation)
    requires WellFormed(t.state)
    ensures WellFormed(Perform(t, op).state)
  {
    hide WellFormed, ReducerSpec.Apply, ConsumeLine, SetPolicy, SetExpectedSlots, ManualEvent;
    match op
    case Event(event) => ApplyKeepsWellFormed(t.state, event);
    case SourcedLine(source, events) => ConsumeKeepsWellFormed(t.state, source, events);
    case ExpectSlots(slots) => ExpectKeepsWellFormed(t.state, slots);
    case ConfigureRedraft(policy) => ConfigureKeepsWellFormed(t.state, policy);
    case ManualAct(action) =>
      if ManualEvent(t.state, action).Ok? {
        ApplyKeepsWellFormed(t.state, ManualEvent(t.state, action).value);
      }
  }

  lemma {:induction false} RunKeepsWellFormed(t: Tracked, ops: seq<Operation>)
    requires WellFormed(t.state)
    ensures WellFormed(Run(t, ops).state)
    decreases ops
  {
    if ops != [] {
      PerformKeepsWellFormed(t, ops[0]);
      RunKeepsWellFormed(Perform(t, ops[0]), ops[1..]);
    }
  }

  lemma NewReducerWellFormed(slots: Option<U16>)
    ensures WellFormed(NewReducer(slots))
    ensures WellFormed(EMPTY_REDUCER)
  {
    assert KeyList(map[]) == [];
    assert PositiveCounts(map[]) == map[];
    assert DeckCards(map[]) == [];
    var s := EMPTY_REDUCER.(configuredSlots := slots);
    assert CompletenessOf(SyncDeck(s)) == CompletenessOf(s);
  }

  lemma ReachableWellFormed(slots: Option<U16>, ops: seq<Operation>)
    ensures WellFormed(RunFresh(slots, ops).state)
  {
    NewReducerWellFormed(slots);
    RunKeepsWellFormed(Tracked(NewReducer(slots), {}), ops);
  }

  // Acceptance.

  lemma RestoreAcceptsWellFormed(s: ReducerState)
    requires WellFormed(s)
    ensures Restore(CheckpointOf(s)) == if NamedProvenance(s.observations) then Ok(s) else Err(InvalidProvenance)
  {
    assert Rebuilt(CheckpointOf(s)) == s;
    assert GoodProvenance(s.observations) <==> NamedProvenance(s.observations);
  }

  /** The checkpoint of any reachable reducer is accepted exactly when its recorded sources are named,
      and then gives back the same reducer. */
  lemma RestoreAcceptsReachable(slots: Option<U16>, ops: seq<Operation>)
    ensures var s := RunFresh(slots, ops).state;
      Restore(CheckpointOf(s)) == if NamedProvenance(s.observations) then Ok(s) else Err(InvalidProvenance)
  {
    hide WellFormed, Run;
    ReachableWellFormed(slots, ops);
    RestoreAcceptsWellFormed(RunFresh(slots, ops).state);
  }

  /** Stopping a reducer after any run and starting another from its checkpoint loses the consumed sources and nothing
      else; only an unnamed source prevents it. */
  method Restart(running: ArenaReducer, ghost slots: Option<U16>, ghost ops: seq<Operation>)
    returns (restarted: Result<ArenaReducer, RestoreError>)
    requires running.State() == RunFresh(slots, ops)
    ensures restarted.Ok? <==> NamedProvenance(running.observations)
    ensures restarted.Ok? ==> fresh(restarted.value) && restarted.value.State() == Tracked(running.Model(), {})
    ensures restarted.Err? ==> restarted.error == InvalidProvenance
  {
    RestoreAcceptsReachable(slots, ops);
    var c := running.TakeCheckpoint();
    restarted := ArenaReducer.FromCheckpoint(c);
  }

  // Bisimulation.

  /** A record that has been consumed is not consumed again, whatever is read from it. */
  lemma RecordCountsOnce(t: Tracked, source: EventSource, events: seq<GameEvent>, again: seq<GameEvent>)
    requires events != []
    ensures ApplySourcedLine(ApplySourcedLine(t, source, events), source, again) == ApplySourcedLine(t, source, events)
  {
    hide ConsumeLine;
  }

  /** No line of the run carries a source the first reducer has already consumed. */
  predicate FreshSources(ops: seq<Operation>, consumed: set<EventSource>) {
    forall op | op in ops && op.SourcedLine? :: op.source !in consumed
  }

  lemma {:induction false} RunForgetsConsumed(t: Tracked, extra: set<EventSource>, ops: seq<Operation>)
    requires FreshSources(ops, extra)
    ensures Run(Tracked(t.state, t.seen + extra), ops).state == Run(t, ops).state
    ensures Run(Tracked(t.state, t.seen + extra), ops).seen == Run(t, ops).seen + extra
    decreases ops
  {
    if ops != [] {
      var wide := Tracked(t.state, t.seen + extra);
      var next := Perform(t, ops[0]);
      assert Perform(wide, ops[0]).seen == next.seen + extra;
      assert Perform(wide, ops[0]) == Tracked(next.state, next.seen + extra);
      RunForgetsConsumed(next, extra, ops[1..]);
    }
  }

  /** A restored reducer follows the uninterrupted one through every later run over fresh sources:
      after each prefix both have the same snapshot, tables and provenance. */
  lemma WarmRestartBisimulates(slots: Option<U16>, before: seq<Operation>, after: seq<Operation>)
    requires var t := RunFresh(slots, before);
      NamedProvenance(t.state.observations) && FreshSources(after, t.seen)
    ensures var t := RunFresh(slots, before);
      && Restore(CheckpointOf(t.state)).Ok?
      && Run(Tracked(Restore(CheckpointOf(t.state)).value, {}), after).state == Run(t, after).state
  {
    var t := RunFresh(slots, before);
    RestoreAcceptsReachable(slots, before);
    RunForgetsConsumed(Tracked(t.state, {}), t.seen, after);
    assert Tracked(t.state, {} + t.seen) == t;
  }

  lemma OneOperation(t: Tracked, op: Operation)
    ensures Run(t, [op]) == Perform(t, op)
  {
    hide Perform;
    assert [op][1..] == [];
  }

  /** Without freshness the restored reducer can differ: replaying a consumed line adds its card again. */
  lemma ReplayedSourceDiverges(source: EventSource)
    requires NamedSource(source)
    ensures var line := SourcedLine(source, [DeckCardSeen(None, "CS2_029")]);
      var t := RunFresh(None, [line]);
      && Count(t.state.deckCounts, "CS2_029") == 1
      && Count(Run(t, [line]).state.deckCounts, "CS2_029") == 1
      && Count(Run(Tracked(t.state, {}), [line]).state.deckCounts, "CS2_029") == 2
  {
    var event := DeckCardSeen(None, "CS2_029");
    var line := SourcedLine(source, [event]);
    var start := Tracked(NewReducer(None), {});
    RealSample();
    var t := Perform(start, line);
    var again := Tracked(t.state, {});
    OneOperation(start, line);
    OneOperation(t, line);
    OneOperation(again, line);
    OneCardLine(start.state, source);
    OneCardLine(t.state, source);
  }

  lemma OneCardLine(s: ReducerState, source: EventSource)
    requires IsRealCardId("CS2_029")
    ensures ConsumeLine(s, source, [DeckCardSeen(None, "CS2_029")]).deckCounts == AddCard(s.deckCounts, "CS2_029")
  {
    var event := DeckCardSeen(None, "CS2_029");
    var noted := s.(observations := RecordEvents(s.observations, source, [event]));
    assert ApplyAll(noted, [event]) == ApplyAll(Apply(noted, event), []);
  }

  lemma RealSample()
    ensures IsRealCardId("CS2_029")
  {
    var id := "CS2_029";
    assert TrimStart(id) == id;
    assert TrimEnd(id) == id;
    assert Upper(id)[0] == 'C' && |Upper(id)| == 7;
  }
}
