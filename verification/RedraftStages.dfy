/** The Redraft stage machine over all runs: what known progress means, when offers are open,
    and how many picks one Redraft accepts. */
module RedraftStages {
  import opened Prelude
  import opened ArenaState
  import opened ReducerSpec
  import opened ReducerFrames

  predicate StagesAgree(s: ReducerState) {
    var redraft := s.snapshot.draft.redraft;
    var limit := redraft.pickRoundsRequired;
    && (redraft.pickProgressKnown ==> redraft.pickRoundsCompleted == s.snapshot.draft.phasePickCount)
    && (redraft.stage.PickingOffers? && redraft.pickProgressKnown && limit.Some? ==>
          redraft.pickRoundsCompleted < limit.value)
    && (redraft.stage.AwaitingDiscardReview? ==>
          redraft.pickProgressKnown && limit.Some? && redraft.pickRoundsCompleted >= limit.value)
  }

  /** `StagesAgree` with what its preservation needs. */
  predicate RedraftInvariant(s: ReducerState) {
    && StagesAgree(s)
    && (s.snapshot.run.draftPhase.Drafting? ==>
          s.snapshot.draft.redraft.stage.Inactive? && !s.snapshot.draft.redraft.pickProgressKnown)
    && (s.policy.Some? ==> s.policy.value.Valid())
  }

  lemma BeginRedraftOpens(s: ReducerState, known: bool)
    requires s.policy.Some? ==> s.policy.value.Valid()
    ensures var r := BeginRedraft(s, known);
      && r.stage.PickingOffers? && r.pickProgressKnown == known && r.pickRoundsCompleted == 0
      && (r.pickRoundsRequired.Some? ==> r.pickRoundsRequired.value > 0)
      && (s.policy.Some? ==> r.pickRoundsRequired == Some(s.policy.value.pickRounds))
  {
  }

  lemma EnterOfferPhaseKeeps(s: ReducerState, phase: DraftPhase)
    requires s.snapshot.run.draftPhase == phase && phase.AcceptsCardOffers()
    requires s.policy.Some? ==> s.policy.value.Valid()
    ensures RedraftInvariant(EnterOfferPhase(s, phase))
  {
    BeginRedraftOpens(WithRun(s, s.snapshot.run.(deckSnapshotComplete := false)), true);
  }

  lemma DeckEditorClosedKeeps(s: ReducerState, previous: DraftPhase)
    requires RedraftInvariant(s) && s.snapshot.run.draftPhase.ActiveDeck?
    ensures RedraftInvariant(DeckEditorClosed(s, previous))
  {
  }

  lemma DraftModeKeeps(s: ReducerState, mode: string)
    requires RedraftInvariant(s)
    ensures RedraftInvariant(DraftMode(s, mode))
  {
    var phase := DraftPhase.FromLog(mode);
    var previous := s.snapshot.run.draftPhase;
    var noted := s.(snapshot := s.snapshot.(
      mode := GameMode.Arena, run := s.snapshot.run.(draftMode := Some(mode), draftPhase := phase)));
    if phase.AcceptsCardOffers() && previous != phase {
      EnterOfferPhaseKeeps(noted, phase);
    } else {
      assert RedraftInvariant(noted);
      if phase.ActiveDeck? {
        DeckEditorClosedKeeps(noted, previous);
      }
    }
  }

  lemma ResyncKeeps(s: ReducerState, id: string, hero: Option<CardId>, ids: seq<CardId>, mode: Option<string>)
    requires RedraftInvariant(s)
    ensures RedraftInvariant(Resync(s, id, hero, ids, mode))
  {
    if mode.Some? {
      var clear := ClearRun(s);
      assert clear.policy == s.policy;
    }
  }

  function Chosen(draft: DraftState, id: CardId): DraftState {
    draft.(selected := Some(id), selections := draft.selections + [id])
  }

  lemma PickEffect(s: ReducerState, id: CardId)
    ensures var r := Pick(s, id);
      && r.snapshot.draft == CountPick(Chosen(s.snapshot.draft, id), s.snapshot.run.draftPhase)
      && r.snapshot.run.draftPhase == s.snapshot.run.draftPhase && r.policy == s.policy
  {
    hide CountPick, Pick;
    PickTouches(s, id);
  }

  lemma CountPickEffect(draft: DraftState, phase: DraftPhase)
    ensures var r := CountPick(draft, phase);
      && r.selections == draft.selections
      && r.redraft.pickProgressKnown == draft.redraft.pickProgressKnown
      && r.redraft.pickRoundsRequired == draft.redraft.pickRoundsRequired
      && (!phase.AcceptsCardOffers() ==> r == draft)
      && (phase.AcceptsCardOffers() ==> r.phasePickCount == SaturatingNext(draft.phasePickCount))
      && (phase.Drafting? ==> r.redraft == draft.redraft)
      && (phase.Redrafting? ==>
            r.redraft == AdvanceAfterPick(draft.redraft.(pickRoundsCompleted := SaturatingNext(draft.phasePickCount))))
  {
  }

  lemma PickKeeps(s: ReducerState, id: CardId)
    requires RedraftInvariant(s) && !IgnoresPick(s, id)
    ensures RedraftInvariant(Pick(s, id))
  {
    PickEffect(s, id);
    CountPickEffect(Chosen(s.snapshot.draft, id), s.snapshot.run.draftPhase);
  }

  /** Everything the invariant reads. */
  predicate SameStages(s: ReducerState, r: ReducerState) {
    && r.snapshot.draft.redraft.(discardedCardIds := []) == s.snapshot.draft.redraft.(discardedCardIds := [])
    && r.snapshot.draft.phasePickCount == s.snapshot.draft.phasePickCount
    && r.snapshot.run.draftPhase == s.snapshot.run.draftPhase
    && r.policy == s.policy
  }

  lemma RunRecordKeeps(s: ReducerState, event: GameEvent)
    requires RedraftInvariant(s) && IsRunRecord(event)
    ensures RedraftInvariant(Mutate(s, event))
  {
    hide RedraftInvariant, DraftMode, Resync, SnapshotStarted, SnapshotCard, SnapshotCompleted, BeginRun;
    match event
    case ArenaRunStarted(id) => BeginRunKeeps(s, id);
    case ArenaAuthoritativeResync(id, hero, ids, mode) => ResyncKeeps(s, id, hero, ids, mode);
    case ArenaDeckSnapshotStarted(id, hero) => SnapshotStartedKeeps(s, id, hero);
    case ArenaDeckSnapshotCard(id) => SnapshotBodyKeeps(s, id);
    case ArenaDeckSnapshotCompleted => SnapshotBodyKeeps(s, "");
    case ArenaDraftMode(mode) => DraftModeKeeps(s, mode);
  }

  lemma BeginRunKeeps(s: ReducerState, id: string)
    requires RedraftInvariant(s)
    ensures RedraftInvariant(BeginRun(s, id))
  {
    hide SlotCount;
  }

  lemma SnapshotBodyKeeps(s: ReducerState, id: CardId)
    requires RedraftInvariant(s)
    ensures RedraftInvariant(SnapshotCard(s, id)) && RedraftInvariant(SnapshotCompleted(s))
  {
    hide SnapshotCard, SnapshotCompleted;
    SnapshotCardSame(s, id);
    SnapshotCompletedSame(s);
  }

  lemma SnapshotCardSame(s: ReducerState, id: CardId)
    ensures var r := SnapshotCard(s, id);
      r.snapshot.draft == s.snapshot.draft && r.snapshot.run == s.snapshot.run && r.policy == s.policy
  {
    hide SnapshotCard;
    SnapshotCardTouches(s, id);
  }

  lemma SnapshotCompletedSame(s: ReducerState)
    ensures var r := SnapshotCompleted(s);
      && r.snapshot.draft == s.snapshot.draft && r.policy == s.policy
      && r.snapshot.run.draftPhase == s.snapshot.run.draftPhase
  {
    hide SnapshotCompleted;
    SnapshotCompletedTouches(s);
  }

  lemma SnapshotStartedKeeps(s: ReducerState, id: string, hero: Option<CardId>)
    requires RedraftInvariant(s)
    ensures RedraftInvariant(SnapshotStarted(s, id, hero))
    ensures SnapshotStarted(s, id, hero).snapshot.draft.redraft == NO_REDRAFT
  {
  }

  lemma DeckRecordSame(s: ReducerState, event: GameEvent)
    requires IsDeckRecord(event)
    ensures SameStages(s, Mutate(s, event))
  {
    hide Mutate;
    DeckRecordSnapshot(s, event);
  }

  /** A deck line changes tables only. */
  lemma DeckRecordSnapshot(s: ReducerState, event: GameEvent)
    requires IsDeckRecord(event)
    ensures Mutate(s, event).snapshot == s.snapshot && Mutate(s, event).policy == s.policy
  {
    hide Mutate;
    DeckRecordTouchesDeck(s, event);
  }

  lemma GameRecordSame(s: ReducerState, event: GameEvent)
    requires IsGameRecord(event)
    ensures SameStages(s, Mutate(s, event))
  {
    hide Mutate;
    GameRecordSnapshot(s, event);
  }

  /** A game line changes the game and its tables only. */
  lemma GameRecordSnapshot(s: ReducerState, event: GameEvent)
    requires IsGameRecord(event)
    ensures var r := Mutate(s, event);
      r.snapshot.draft == s.snapshot.draft && r.snapshot.run == s.snapshot.run && r.policy == s.policy
  {
    hide SlotCount, IsDeckExit, RemoveOne;
  }

  lemma ReviewRecordKeeps(s: ReducerState, event: GameEvent)
    requires RedraftInvariant(s) && IsReviewRecord(event)
    ensures RedraftInvariant(Mutate(s, event))
  {
    hide RedraftInvariant, ReviewStarted, DiscardSelected, DiscardsReplaced, ReviewCompleted;
    match event
    case ArenaRedraftDiscardReviewStarted => ReviewStartedKeeps(s);
    case ArenaRedraftDiscardSelected(id) => DiscardsKeep(s, id, []);
    case ArenaRedraftDiscardSelectionsReplaced(ids) => DiscardsKeep(s, "", ids);
    case ArenaRedraftDiscardReviewCompleted => ReviewStartedKeeps(s);
  }

  lemma ReviewStartedKeeps(s: ReducerState)
    requires RedraftInvariant(s)
    ensures RedraftInvariant(ReviewStarted(s)) && RedraftInvariant(ReviewCompleted(s))
  {
    hide IsRealCardId;
  }

  lemma DiscardsKeep(s: ReducerState, id: CardId, ids: seq<CardId>)
    requires RedraftInvariant(s)
    ensures RedraftInvariant(DiscardSelected(s, id)) && RedraftInvariant(DiscardsReplaced(s, ids))
  {
    hide IsRealCardId;
  }

  lemma HeroSame(s: ReducerState, hero: Option<HeroClass>)
    ensures SameStages(s, WithHero(s, hero))
  {
  }

  lemma OfferSame(
    s: ReducerState, number: Option<U8>, kind: OfferKind, items: seq<OfferItem>, confidence: real, source: OfferSource)
    ensures SameStages(s, Offer(s, number, kind, items, confidence, source))
  {
  }

  lemma MutateKeeps(s: ReducerState, event: GameEvent)
    requires RedraftInvariant(s) && !Ignores(s, event)
    ensures RedraftInvariant(Mutate(s, event))
  {
    if IsDeckRecord(event) {
      DeckRecordSame(s, event);
    } else if IsRunRecord(event) {
      RunRecordKeeps(s, event);
    } else if IsGameRecord(event) {
      GameRecordSame(s, event);
    } else if IsReviewRecord(event) {
      ReviewRecordKeeps(s, event);
    } else {
      match event
      case ArenaPick(id) => PickKeeps(s, id);
      case ArenaOffer(number, kind, items, confidence, source) => OfferSame(s, number, kind, items, confidence, source);
      case HeroClassSeen(raw) => HeroSame(s, HeroClass.FromLog(raw));
      case HeroCard(id) => HeroSame(s, HeroClass.OfHeroCard(id));
      case GameModeSeen(_) =>
    }
  }

  lemma SyncSame(s: ReducerState)
    ensures SameStages(s, Sync(s))
    ensures Sync(s).snapshot.draft == s.snapshot.draft && Sync(s).snapshot.run == s.snapshot.run
  {
  }

  lemma ApplyKeeps(s: ReducerState, event: GameEvent)
    requires RedraftInvariant(s)
    ensures RedraftInvariant(Apply(s, event))
  {
    if !Ignores(s, event) {
      MutateKeeps(s, event);
      SyncSame(Mutate(s, event));
    }
  }

  lemma {:induction false} ApplyAllKeeps(s: ReducerState, events: seq<GameEvent>)
    requires RedraftInvariant(s)
    ensures RedraftInvariant(ApplyAll(s, events))
    decreases events
  {
    if events != [] {
      ApplyKeeps(s, events[0]);
      ApplyAllKeeps(Apply(s, events[0]), events[1..]);
    }
  }

  lemma SetPolicyKeeps(s: ReducerState, policy: Option<RedraftPolicy>)
    requires RedraftInvariant(s)
    ensures RedraftInvariant(SetPolicy(s, policy))
  {
    if policy.Some? ==> policy.value.Valid() {
      var t := SyncRedraftPolicy(s.(policy := policy));
      assert SameStages(t, SyncDeck(t));
      assert RedraftInvariant(t);
    }
  }

  lemma PerformKeeps(t: Tracked, op: Operation)
    requires RedraftInvariant(t.state)
    ensures RedraftInvariant(Perform(t, op).state)
  {
    match op
    case Event(event) => ApplyKeeps(t.state, event);
    case SourcedLine(source, events) =>
      var noted := t.state.(observations := RecordEvents(t.state.observations, source, events));
      ApplyAllKeeps(noted, events);
    case ExpectSlots(slots) => assert SameStages(t.state, SetExpectedSlots(t.state, slots));
    case ConfigureRedraft(policy) => SetPolicyKeeps(t.state, policy);
    case ManualAct(action) =>
      if ManualEvent(t.state, action).Ok? {
        ApplyKeeps(t.state, ManualEvent(t.state, action).value);
      }
  }

  lemma {:induction false} RunKeeps(t: Tracked, ops: seq<Operation>)
    requires RedraftInvariant(t.state)
    ensures RedraftInvariant(Run(t, ops).state)
    decreases ops
  {
    if ops != [] {
      PerformKeeps(t, ops[0]);
      RunKeeps(Perform(t, ops[0]), ops[1..]);
    }
  }

  lemma FreshRunKeeps(slots: Option<U16>, ops: seq<Operation>)
    ensures RedraftInvariant(RunFresh(slots, ops).state)
  {
    hide Run;
    RunKeeps(Tracked(NewReducer(slots), {}), ops);
  }

  /** Over every run, policy changes and manual actions included: known progress counts the phase picks,
      offers are open exactly while rounds remain, and a review is awaited only once they are used up. */
  lemma ReachableStagesAgree(slots: Option<U16>, ops: seq<Operation>)
    ensures StagesAgree(RunFresh(slots, ops).state)
  {
    RunKeeps(Tracked(NewReducer(slots), {}), ops);
  }

  // One Redraft epoch.

  predicate InRedraft(s: ReducerState) {
    s.snapshot.run.draftPhase.Redrafting?
  }

  /** The events keep the reducer in the Redraft phase, without a resync that forgets the progress. */
  ghost predicate StaysInRedraft(s: ReducerState, events: seq<GameEvent>)
    decreases events
  {
    events == []
    || (!events[0].ArenaAuthoritativeResync? && InRedraft(Apply(s, events[0]))
        && StaysInRedraft(Apply(s, events[0]), events[1..]))
  }

  function RealPicks(events: seq<GameEvent>): nat {
    if events == [] then 0
    else (if events[0].ArenaPick? && IsRealCardId(events[0].cardId) then 1 else 0) + RealPicks(events[1..])
  }

  predicate NoNewSnapshot(events: seq<GameEvent>) {
    forall event | event in events :: !event.ArenaDeckSnapshotStarted?
  }

  /** Inside an epoch of `rounds` rounds that began with `before` selections. */
  predicate InEpoch(s: ReducerState, rounds: U8, before: nat) {
    var draft := s.snapshot.draft;
    && RedraftInvariant(s) && InRedraft(s)
    && s.policy.Some? && s.policy.value.pickRounds == rounds
    && |draft.selections| == before + draft.phasePickCount
    && draft.phasePickCount <= rounds
    && (draft.redraft.stage.Inactive? || (draft.redraft.pickProgressKnown && draft.redraft.pickRoundsRequired == Some(rounds)))
  }

  /** The epoch's stage: offers are open exactly while fewer than `rounds` picks were accepted. */
  predicate EpochOpen(s: ReducerState, rounds: U8) {
    && !s.snapshot.draft.redraft.stage.Inactive?
    && (s.snapshot.draft.redraft.stage.PickingOffers? <==> s.snapshot.draft.phasePickCount < rounds)
  }

  lemma EpochBegins(s: ReducerState, mode: string, rounds: U8)
    requires RedraftInvariant(s) && !InRedraft(s) && DraftPhase.FromLog(mode).Redrafting?
    requires s.policy.Some? && s.policy.value.pickRounds == rounds
    ensures var r := Apply(s, ArenaDraftMode(mode));
      && InEpoch(r, rounds, |s.snapshot.draft.selections|) && EpochOpen(r, rounds)
      && r.snapshot.draft.phasePickCount == 0
  {
    ApplyKeeps(s, ArenaDraftMode(mode));
    var noted := s.(snapshot := s.snapshot.(
      mode := GameMode.Arena, run := s.snapshot.run.(draftMode := Some(mode), draftPhase := DraftPhase.Redrafting)));
    BeginRedraftOpens(WithRun(noted, noted.snapshot.run.(deckSnapshotComplete := false)), true);
    SyncSame(DraftMode(s, mode));
  }

  /** A non-pick event neither selects nor counts, unless it leaves the epoch. */
  lemma EpochKeepsCounts(s: ReducerState, event: GameEvent, rounds: U8, before: nat)
    requires InEpoch(s, rounds, before) && !event.ArenaPick? && !event.ArenaAuthoritativeResync?
    requires InRedraft(Apply(s, event))
    ensures var r := Apply(s, event);
      && InEpoch(r, rounds, before)
      && r.snapshot.draft.phasePickCount == s.snapshot.draft.phasePickCount
      && (EpochOpen(s, rounds) && !event.ArenaDeckSnapshotStarted? ==> EpochOpen(r, rounds))
  {
    ApplyKeeps(s, event);
    if !Ignores(s, event) {
      SyncSame(Mutate(s, event));
      EpochMutation(s, event);
    }
  }

  /** What an event leaves alone when it is neither a pick nor a new snapshot. */
  predicate SameEpoch(s: ReducerState, r: ReducerState) {
    && r.policy == s.policy
    && r.snapshot.draft.phasePickCount == s.snapshot.draft.phasePickCount
    && r.snapshot.draft.selections == s.snapshot.draft.selections
    && r.snapshot.draft.redraft.stage.PickingOffers? == s.snapshot.draft.redraft.stage.PickingOffers?
    && r.snapshot.draft.redraft.stage.Inactive? == s.snapshot.draft.redraft.stage.Inactive?
    && r.snapshot.draft.redraft.pickProgressKnown == s.snapshot.draft.redraft.pickProgressKnown
    && r.snapshot.draft.redraft.pickRoundsRequired == s.snapshot.draft.redraft.pickRoundsRequired
  }

  /** The decks, the picks made and the run. */
  predicate SameDecks(s: ReducerState, r: ReducerState) {
    && r.deckCounts == s.deckCounts && r.gameCounts == s.gameCounts
    && r.snapshot.draft.selections == s.snapshot.draft.selections
    && r.snapshot.draft.phasePickCount == s.snapshot.draft.phasePickCount
    && r.snapshot.run == s.snapshot.run
  }

  lemma TableRecordSameEpoch(s: ReducerState, event: GameEvent)
    requires InRedraft(s) && (IsDeckRecord(event) || IsGameRecord(event))
    ensures SameEpoch(s, Mutate(s, event))
  {
    hide Mutate;
    if IsDeckRecord(event) {
      DeckRecordSnapshot(s, event);
    } else {
      GameRecordSnapshot(s, event);
    }
  }

  lemma EpochMutation(s: ReducerState, event: GameEvent)
    requires InRedraft(s) && !event.ArenaPick? && !event.ArenaAuthoritativeResync?
    requires InRedraft(Mutate(s, event))
    ensures var r := Mutate(s, event);
      if event.ArenaDeckSnapshotStarted?
      then r.snapshot.draft == s.snapshot.draft.(redraft := NO_REDRAFT) && r.policy == s.policy
      else SameEpoch(s, r)
  {
    hide SameEpoch, DraftMode, SnapshotStarted, SnapshotCard, SnapshotCompleted, BeginRun, Offer, WithHero,
      HeroClass.OfHeroCard, HeroClass.FromLog;
    if IsDeckRecord(event) || IsGameRecord(event) {
      TableRecordSameEpoch(s, event);
    } else if IsReviewRecord(event) {
      ReviewSameEpoch(s, event);
    } else {
      match event
      case ArenaDraftMode(mode) => RedraftModeLine(s, mode);
      case ArenaDeckSnapshotStarted(id, hero) => SnapshotInRedraft(s, id, hero);
      case ArenaOffer(number, kind, items, confidence, source) =>
        OfferSameEpoch(s, number, kind, items, confidence, source);
      case HeroClassSeen(raw) => HeroSameEpoch(s, HeroClass.FromLog(raw));
      case HeroCard(id) => HeroSameEpoch(s, HeroClass.OfHeroCard(id));
      case ArenaRunStarted(id) => RunLeavesRedraft(s, id);
      case ArenaDeckSnapshotCard(id) => SnapshotBodySameEpoch(s, id);
      case ArenaDeckSnapshotCompleted => SnapshotBodySameEpoch(s, "");
      case GameModeSeen(raw) => ModeSameEpoch(s, raw);
    }
  }

  lemma HeroSameEpoch(s: ReducerState, hero: Option<HeroClass>)
    ensures SameEpoch(s, WithHero(s, hero))
  {
  }

  lemma ModeSameEpoch(s: ReducerState, raw: string)
    ensures SameEpoch(s, Mutate(s, GameModeSeen(raw)))
  {
  }

  lemma RunLeavesRedraft(s: ReducerState, id: string)
    ensures !InRedraft(BeginRun(s, id))
  {
    hide SlotCount;
  }

  lemma SnapshotBodySameEpoch(s: ReducerState, id: CardId)
    ensures SameEpoch(s, SnapshotCard(s, id)) && SameEpoch(s, SnapshotCompleted(s))
  {
    hide SnapshotCard, SnapshotCompleted;
    SnapshotCardSame(s, id);
    SnapshotCompletedSame(s);
  }

  lemma ReviewSameEpoch(s: ReducerState, event: GameEvent)
    requires IsReviewRecord(event)
    ensures SameEpoch(s, Mutate(s, event)) && SameDecks(s, Mutate(s, event))
  {
    hide SameEpoch, SameDecks, ReviewStarted, DiscardSelected, DiscardsReplaced, ReviewCompleted;
    match event
    case ArenaRedraftDiscardReviewStarted =>
      ReviewsSameEpoch(s);
      ReviewsSameDecks(s);
    case ArenaRedraftDiscardSelected(id) =>
      DiscardsSameEpoch(s, id, []);
      DiscardsSameDecks(s, id, []);
    case ArenaRedraftDiscardSelectionsReplaced(ids) =>
      DiscardsSameEpoch(s, "", ids);
      DiscardsSameDecks(s, "", ids);
    case ArenaRedraftDiscardReviewCompleted =>
      ReviewsSameEpoch(s);
      ReviewsSameDecks(s);
  }

  lemma ReviewsSameEpoch(s: ReducerState)
    ensures SameEpoch(s, ReviewStarted(s)) && SameEpoch(s, ReviewCompleted(s))
  {
    hide ReviewStarted, ReviewCompleted;
    ReviewStartedIs(s);
    ReviewCompletedIs(s);
  }

  lemma ReviewsSameDecks(s: ReducerState)
    ensures SameDecks(s, ReviewStarted(s)) && SameDecks(s, ReviewCompleted(s))
  {
    hide ReviewStarted, ReviewCompleted;
    ReviewStartedIs(s);
    ReviewCompletedIs(s);
  }

  lemma ReviewStartedIs(s: ReducerState)
    ensures var draft := s.snapshot.draft;
      || ReviewStarted(s) == s
      || (draft.redraft.stage.AwaitingDiscardReview?
          && ReviewStarted(s) == WithDraft(s, draft.(
               redraft := draft.redraft.(stage := ReviewingDiscards), currentOffer := None, offers := [], selected := None)))
  {
  }

  lemma ReviewCompletedIs(s: ReducerState)
    ensures
      || ReviewCompleted(s) == s
      || (s.snapshot.draft.redraft.stage.ReviewingDiscards?
          && ReviewCompleted(s) == WithRedraft(s, s.snapshot.draft.redraft.(stage := RedraftStage.Complete)))
  {
  }

  lemma DiscardsSameEpoch(s: ReducerState, id: CardId, ids: seq<CardId>)
    ensures SameEpoch(s, DiscardSelected(s, id)) && SameEpoch(s, DiscardsReplaced(s, ids))
  {
    hide IsRealCardId;
  }

  lemma DiscardsSameDecks(s: ReducerState, id: CardId, ids: seq<CardId>)
    ensures SameDecks(s, DiscardSelected(s, id)) && SameDecks(s, DiscardsReplaced(s, ids))
  {
    hide DiscardSelected, DiscardsReplaced;
    DiscardTouchesDraft(s, id);
    DiscardsTouchDraft(s, ids);
    DiscardsSameEpoch(s, id, ids);
  }

  lemma OfferSameEpoch(
    s: ReducerState, number: Option<U8>, kind: OfferKind, items: seq<OfferItem>, confidence: real, source: OfferSource)
    ensures SameEpoch(s, Offer(s, number, kind, items, confidence, source))
  {
  }

  lemma RedraftModeLine(s: ReducerState, mode: string)
    requires InRedraft(s) && InRedraft(DraftMode(s, mode))
    ensures DraftMode(s, mode).snapshot.draft == s.snapshot.draft && DraftMode(s, mode).policy == s.policy
    ensures SameEpoch(s, DraftMode(s, mode))
  {
    ModeLinePhase(s, mode);
  }

  lemma ModeLinePhase(s: ReducerState, mode: string)
    ensures DraftMode(s, mode).snapshot.run.draftPhase == DraftPhase.FromLog(mode)
  {
    hide DraftPhase.FromLog, SlotCount;
    var phase := DraftPhase.FromLog(mode);
    var noted := s.(snapshot := s.snapshot.(
      mode := GameMode.Arena, run := s.snapshot.run.(draftMode := Some(mode), draftPhase := phase)));
    EnterOfferPhaseRun(noted, phase);
    DeckEditorClosedRun(noted, s.snapshot.run.draftPhase);
  }

  lemma EnterOfferPhaseRun(s: ReducerState, phase: DraftPhase)
    ensures EnterOfferPhase(s, phase).snapshot.run.draftPhase == s.snapshot.run.draftPhase
  {
    hide BeginRedraft;
  }

  lemma DeckEditorClosedRun(s: ReducerState, previous: DraftPhase)
    ensures DeckEditorClosed(s, previous).snapshot.run.draftPhase == s.snapshot.run.draftPhase
  {
    hide SlotCount;
  }

  lemma SnapshotInRedraft(s: ReducerState, id: string, hero: Option<CardId>)
    requires InRedraft(s) && InRedraft(SnapshotStarted(s, id, hero))
    ensures var r := SnapshotStarted(s, id, hero);
      r.snapshot.draft == s.snapshot.draft.(redraft := NO_REDRAFT) && r.policy == s.policy
  {
  }

  lemma EpochPick(s: ReducerState, id: CardId, rounds: U8, before: nat)
    requires InEpoch(s, rounds, before)
    ensures var r := Apply(s, ArenaPick(id));
      && InEpoch(r, rounds, before)
      && (EpochOpen(s, rounds) ==> EpochOpen(r, rounds))
      && r.snapshot.draft.phasePickCount == s.snapshot.draft.phasePickCount
           + (if IsRealCardId(id) && s.snapshot.draft.redraft.stage.PickingOffers? then 1 else 0)
  {
    ApplyKeeps(s, ArenaPick(id));
    if !IgnoresPick(s, id) {
      SyncSame(Pick(s, id));
      PickEffect(s, id);
      CountPickEffect(Chosen(s.snapshot.draft, id), s.snapshot.run.draftPhase);
    }
  }

  lemma EpochStep(s: ReducerState, event: GameEvent, rounds: U8, before: nat)
    requires InEpoch(s, rounds, before) && !event.ArenaAuthoritativeResync? && InRedraft(Apply(s, event))
    ensures InEpoch(Apply(s, event), rounds, before)
    ensures EpochOpen(s, rounds) && !event.ArenaDeckSnapshotStarted? ==>
      && EpochOpen(Apply(s, event), rounds)
      && Apply(s, event).snapshot.draft.phasePickCount
           == Min(rounds, s.snapshot.draft.phasePickCount + RealPicks([event]))
  {
    assert RealPicks([event]) == if event.ArenaPick? && IsRealCardId(event.cardId) then 1 else 0;
    if event.ArenaPick? {
      EpochPick(s, event.cardId, rounds, before);
    } else {
      EpochKeepsCounts(s, event, rounds, before);
    }
  }

  lemma {:induction false} EpochRun(s: ReducerState, events: seq<GameEvent>, rounds: U8, before: nat)
    requires InEpoch(s, rounds, before) && StaysInRedraft(s, events)
    ensures InEpoch(ApplyAll(s, events), rounds, before)
    ensures EpochOpen(s, rounds) && NoNewSnapshot(events) ==>
      && ApplyAll(s, events).snapshot.draft.phasePickCount
        == Min(rounds, s.snapshot.draft.phasePickCount + RealPicks(events))
      && EpochOpen(ApplyAll(s, events), rounds)
    decreases events
  {
    hide ReducerSpec.Apply;
    if events != [] {
      EpochStep(s, events[0], rounds, before);
      RealPicksSplit(events);
      assert NoNewSnapshot(events) ==> NoNewSnapshot(events[1..]) && events[0] in events;
      EpochRun(Apply(s, events[0]), events[1..], rounds, before);
    }
  }

  lemma RealPicksSplit(events: seq<GameEvent>)
    requires events != []
    ensures RealPicks(events) == RealPicks([events[0]]) + RealPicks(events[1..])
  {
  }

  // The operations of an epoch.

  /** The events an operation makes the reducer apply. */
  ghost function OpEvents(t: Tracked, op: Operation): seq<GameEvent> {
    match op
    case Event(event) => [event]
    case SourcedLine(source, events) => if source in t.seen then [] else events
    case ManualAct(action) => if ManualEvent(t.state, action).Ok? then [ManualEvent(t.state, action).value] else []
    case _ => []
  }

  /** The reducer as those events find it. */
  ghost function BeforeEvents(t: Tracked, op: Operation): ReducerState {
    match op
    case SourcedLine(source, events) =>
      if source in t.seen then t.state
      else t.state.(observations := RecordEvents(t.state.observations, source, events))
    case ExpectSlots(slots) => SetExpectedSlots(t.state, slots)
    case _ => t.state
  }

  ghost function AllEvents(t: Tracked, ops: seq<Operation>): seq<GameEvent>
    decreases ops
  {
    if ops == [] then [] else OpEvents(t, ops[0]) + AllEvents(Perform(t, ops[0]), ops[1..])
  }

  /** No event of these operations leaves the Redraft phase or resynchronises, and the policy stays. */
  ghost predicate OpsStayInRedraft(t: Tracked, ops: seq<Operation>)
    decreases ops
  {
    ops == []
    || (!ops[0].ConfigureRedraft? && StaysInRedraft(BeforeEvents(t, ops[0]), OpEvents(t, ops[0]))
        && OpsStayInRedraft(Perform(t, ops[0]), ops[1..]))
  }

  lemma PerformIsEvents(t: Tracked, op: Operation)
    requires !op.ConfigureRedraft?
    ensures Perform(t, op).state == ApplyAll(BeforeEvents(t, op), OpEvents(t, op))
  {
    hide ReducerSpec.Apply, RecordEvents, ManualEvent;
    match op
    case Event(event) => ApplyOne(t.state, event);
    case SourcedLine(source, events) =>
      if events == [] && source !in t.seen {
        assert t.state.(observations := RecordEvents(t.state.observations, source, [])) == t.state by {
          NothingRecorded(t.state.observations, source);
        }
      }
    case ManualAct(action) =>
      if ManualEvent(t.state, action).Ok? {
        ApplyOne(t.state, ManualEvent(t.state, action).value);
      }
    case ExpectSlots(_) =>
  }

  lemma NothingRecorded(table: Observations, source: EventSource)
    ensures RecordEvents(table, source, []) == table
  {
  }

  lemma ApplyOne(s: ReducerState, event: GameEvent)
    ensures ApplyAll(s, [event]) == Apply(s, event)
  {
    hide ReducerSpec.Apply;
    assert ApplyAll(s, [event]) == ApplyAll(Apply(s, event), []);
  }

  lemma BeforeEventsSame(t: Tracked, op: Operation)
    ensures var s := BeforeEvents(t, op);
      && s.snapshot.draft == t.state.snapshot.draft && s.snapshot.run == t.state.snapshot.run
      && s.policy == t.state.policy
  {
    hide RecordEvents;
  }

  lemma {:induction false} RealPicksConcat(a: seq<GameEvent>, b: seq<GameEvent>)
    ensures RealPicks(a + b) == RealPicks(a) + RealPicks(b)
  {
    hide IsRealCardId;
    if a == [] {
      assert a + b == b;
    } else {
      assert (a + b)[0] == a[0] && (a + b)[1..] == a[1..] + b;
      RealPicksConcat(a[1..], b);
    }
  }

  lemma {:induction false} EpochOps(t: Tracked, ops: seq<Operation>, rounds: U8, before: nat)
    requires InEpoch(t.state, rounds, before) && OpsStayInRedraft(t, ops)
    ensures InEpoch(Run(t, ops).state, rounds, before)
    ensures EpochOpen(t.state, rounds) && NoNewSnapshot(AllEvents(t, ops)) ==>
      Run(t, ops).state.snapshot.draft.phasePickCount
        == Min(rounds, t.state.snapshot.draft.phasePickCount + RealPicks(AllEvents(t, ops)))
    decreases ops
  {
    hide Perform, StaysInRedraft, ApplyAll, RealPicks, OpEvents, BeforeEvents;
    if ops != [] {
      var events, rest := OpEvents(t, ops[0]), AllEvents(Perform(t, ops[0]), ops[1..]);
      BeforeEventsSame(t, ops[0]);
      PerformIsEvents(t, ops[0]);
      EpochRun(BeforeEvents(t, ops[0]), events, rounds, before);
      EpochOps(Perform(t, ops[0]), ops[1..], rounds, before);
      RealPicksConcat(events, rest);
      assert AllEvents(t, ops) == events + rest;
    } else {
      NoPicks();
    }
  }

  lemma NoPicks()
    ensures RealPicks([]) == 0
  {
  }

  /** A Redraft entered by a mode line under a policy of `rounds` rounds accepts at most `rounds` picks, whatever lines,
      manual actions and deck sizes come in, and exactly the first `rounds` real ones while no new deck snapshot
      begins. */
  lemma RedraftAcceptsAtMostItsRounds(
    slots: Option<U16>, ops: seq<Operation>, mode: string, rounds: U8, epoch: seq<Operation>)
    requires var t := RunFresh(slots, ops);
      && !InRedraft(t.state) && DraftPhase.FromLog(mode).Redrafting?
      && t.state.policy.Some? && t.state.policy.value.pickRounds == rounds
      && OpsStayInRedraft(Perform(t, Event(ArenaDraftMode(mode))), epoch)
    ensures var s := RunFresh(slots, ops).state;
      var entered := Perform(RunFresh(slots, ops), Event(ArenaDraftMode(mode)));
      var accepted := |Run(entered, epoch).state.snapshot.draft.selections| - |s.snapshot.draft.selections|;
      && 0 <= accepted <= rounds
      && (NoNewSnapshot(AllEvents(entered, epoch)) ==> accepted == Min(rounds, RealPicks(AllEvents(entered, epoch))))
  {
    hide ReducerSpec.Apply, NoNewSnapshot, OpsStayInRedraft, AllEvents, Run, RunFresh, RealPicks, RedraftInvariant;
    var t := RunFresh(slots, ops);
    FreshRunKeeps(slots, ops);
    EpochBegins(t.state, mode, rounds);
    EpochOps(Perform(t, Event(ArenaDraftMode(mode))), epoch, rounds, |t.state.snapshot.draft.selections|);
  }

  /** Without known progress there is no bound: after a resync into Redraft every real pick is accepted. */
  lemma ResyncedRedraftIsUnbounded(s: ReducerState, id: CardId)
    requires InRedraft(s) && IsRealCardId(id)
    requires s.snapshot.draft.redraft.stage.PickingOffers? && !s.snapshot.draft.redraft.pickProgressKnown
    ensures var r := Apply(s, ArenaPick(id));
      && r.snapshot.draft.selections == s.snapshot.draft.selections + [id]
      && InRedraft(r) && r.snapshot.draft.redraft.stage.PickingOffers? && !r.snapshot.draft.redraft.pickProgressKnown
  {
    SyncSame(Pick(s, id));
    PickEffect(s, id);
    CountPickEffect(Chosen(s.snapshot.draft, id), s.snapshot.run.draftPhase);
  }

  // Manual actions.

  lemma OfferSameDecks(
    s: ReducerState, number: Option<U8>, kind: OfferKind, items: seq<OfferItem>, confidence: real, source: OfferSource)
    ensures SameDecks(s, Offer(s, number, kind, items, confidence, source))
  {
  }

  /** A manual action never drafts a card, changes a deck or plays one; a refused action changes nothing. */
  lemma ManualActionsTouchNoDeck(s: ReducerState, action: ManualAction)
    ensures SameDecks(s, ApplyManual(s, action))
    ensures ManualEvent(s, action).Err? ==> ApplyManual(s, action) == s
  {
    hide Offer, Sync, SameEpoch, ReviewStarted, DiscardSelected, DiscardsReplaced, ReviewCompleted;
    var event := ManualEvent(s, action);
    if event.Ok? {
      if event.value.ArenaOffer? {
        var offer := event.value;
        OfferSameDecks(s, offer.pickNumber, offer.kind, offer.items, offer.confidence, offer.source);
      } else {
        ReviewSameEpoch(s, event.value);
      }
      SyncSameDecks(Mutate(s, event.value));
    }
  }

  lemma SyncSameDecks(s: ReducerState)
    ensures SameDecks(s, Sync(s))
  {
  }

  /** In Redraft a manual offer is accepted only while an ordinary round is known to be open. */
  lemma ManualOfferNeedsOpenRound(s: ReducerState, kind: OfferKind, items: seq<OfferItem>)
    requires RedraftInvariant(s) && InRedraft(s)
    ensures ManualEvent(s, ReplaceOffer(kind, items)).Ok? <==>
      && items != [] && (forall i | 0 <= i < |items| :: items[i].Valid())
      && kind.RedraftPick? && s.snapshot.draft.redraft.stage.PickingOffers?
      && s.snapshot.draft.redraft.pickProgressKnown && s.snapshot.draft.redraft.pickRoundsRequired.Some?
  {
  }
}
