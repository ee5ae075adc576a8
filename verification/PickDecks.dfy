/** What picks do to the deck: when one card more is counted, and what whole drafts end with. */
module PickDecks {
  import opened Prelude
  import opened ArenaState
  import opened ReducerSpec
  import opened ReducerFrames

  // One pick.

  /** A pick that is attributed: a real card, and in Redraft while a round is open. */
  predicate Accepted(s: ReducerState, id: CardId) {
    IsRealCardId(id) && (s.snapshot.run.draftPhase.Redrafting? ==> s.snapshot.draft.redraft.stage.PickingOffers?)
  }

  /** The deck comes from a resync in the middle of a draft, so the next choices are still missing from it. */
  predicate MidDraftResync(s: ReducerState) {
    && s.snapshot.run.stateOrigin.AuthoritativeResync?
    && (s.snapshot.run.draftPhase.Drafting? || s.snapshot.run.draftPhase.Redrafting?)
  }

  lemma AddCardCounts(counts: map<CardId, nat>, id: CardId)
    ensures forall c :: Count(AddCard(counts, id), c)
                     == Count(counts, c) + (if c == id && IsRealCardId(id) then 1 else 0)
    ensures forall c :: c in AddCard(counts, id) <==> c in counts || (IsRealCardId(id) && c == id)
  {
    hide IsRealCardId;
  }

  /** An accepted pick counts its card once more, and no other, if and only if the deck was not complete or stems from a
      resync in the middle of a draft; after such a resync the deck is no longer complete. */
  lemma PickExtendsIff(s: ReducerState, id: CardId)
    requires Accepted(s, id)
    ensures var r := Apply(s, ArenaPick(id));
      && (forall c :: Count(r.deckCounts, c) == Count(s.deckCounts, c)
            + (if c == id && (!s.snapshot.run.deckSnapshotComplete || MidDraftResync(s)) then 1 else 0))
      && r.snapshot.run
           == s.snapshot.run.(deckSnapshotComplete := s.snapshot.run.deckSnapshotComplete && !MidDraftResync(s))
      && r.snapshot.deck == DeckCards(r.deckCounts)
      && r.gameCounts == s.gameCounts && r.policy == s.policy && r.configuredSlots == s.configuredSlots
  {
    hide IsRealCardId, AddCard, DeckCards, DeckStateOf, PositiveCounts, CountPick;
    AddCardCounts(s.deckCounts, id);
  }

  /** What an accepted pick does to the draft: the card is selected, the offer is gone, the next number follows. */
  lemma PickAdvancesDraft(s: ReducerState, id: CardId)
    requires Accepted(s, id)
    ensures var before, after := s.snapshot.draft, Apply(s, ArenaPick(id)).snapshot.draft;
      && after.selections == before.selections + [id] && after.selected == Some(id)
      && after.historyStatus == before.historyStatus && after.exactPhaseProgress == before.exactPhaseProgress
      && (if s.snapshot.run.draftPhase.Drafting? || s.snapshot.run.draftPhase.Redrafting? then
            && after.phasePickCount == Min(255, before.phasePickCount + 1)
            && after.pickNumber == (if before.exactPhaseProgress then Min(255, before.phasePickCount + 2) else 0)
            && after.currentOffer.None? && after.offers == []
          else
            && after.phasePickCount == before.phasePickCount && after.pickNumber == before.pickNumber
            && after.currentOffer == before.currentOffer && after.offers == before.offers)
      && (!s.snapshot.run.draftPhase.Redrafting? ==> after.redraft == before.redraft)
  {
    hide IsRealCardId, Sync, Pick, CountPick;
    PickTouches(s, id);
    SyncedDraft(Pick(s, id));
    CountedDraft(s.snapshot.draft.(selected := Some(id), selections := s.snapshot.draft.selections + [id]),
                 s.snapshot.run.draftPhase);
  }

  lemma SyncedDraft(s: ReducerState)
    ensures Sync(s) == s.(snapshot := Sync(s).snapshot)
    ensures Sync(s).snapshot.draft == s.snapshot.draft && Sync(s).snapshot.run == s.snapshot.run
  {
    hide DeckCards, DeckStateOf, PositiveCounts;
  }

  lemma CountedDraft(draft: DraftState, phase: DraftPhase)
    ensures var after := CountPick(draft, phase);
      && after.selections == draft.selections && after.selected == draft.selected
      && after.historyStatus == draft.historyStatus && after.exactPhaseProgress == draft.exactPhaseProgress
      && (if phase.Drafting? || phase.Redrafting? then
            && after.phasePickCount == Min(255, draft.phasePickCount + 1)
            && after.pickNumber == (if draft.exactPhaseProgress then Min(255, draft.phasePickCount + 2) else 0)
            && after.currentOffer.None? && after.offers == []
          else after == draft)
      && (!phase.Redrafting? ==> after.redraft == draft.redraft)
  {
  }

  // Runs of picks.

  function Picks(ids: seq<CardId>): seq<GameEvent> {
    seq(|ids|, i requires 0 <= i < |ids| => ArenaPick(ids[i]))
  }

  /** Choices are attributed and counted, and stay so. */
  predicate Collecting(s: ReducerState) {
    && (!s.snapshot.run.deckSnapshotComplete || MidDraftResync(s))
    && (s.snapshot.run.draftPhase.Redrafting? ==>
          s.snapshot.draft.redraft.stage.PickingOffers? && !s.snapshot.draft.redraft.pickProgressKnown)
  }

  lemma CollectingStays(s: ReducerState, id: CardId)
    requires Collecting(s) && IsRealCardId(id)
    ensures Collecting(Apply(s, ArenaPick(id)))
  {
    hide IsRealCardId, Sync, Pick, DeckCards;
    PickExtendsIff(s, id);
    PickTouches(s, id);
    SyncedDraft(Pick(s, id));
  }

  ghost predicate AddedCards(s: ReducerState, r: ReducerState, ids: seq<CardId>) {
    && (forall c :: Count(r.deckCounts, c) == Count(s.deckCounts, c) + multiset(ids)[c])
    && (ids != [] ==> r.snapshot.deck == DeckCards(r.deckCounts))
  }

  predicate ListedPicks(s: ReducerState, r: ReducerState, ids: seq<CardId>) {
    && r.snapshot.draft.selections == s.snapshot.draft.selections + ids
    && r.snapshot.run == s.snapshot.run.(
         deckSnapshotComplete := if ids == [] then s.snapshot.run.deckSnapshotComplete else false)
    && r.snapshot.draft.exactPhaseProgress == s.snapshot.draft.exactPhaseProgress
    && r.snapshot.draft.historyStatus == s.snapshot.draft.historyStatus
    && (s.snapshot.run.draftPhase.Drafting? || s.snapshot.run.draftPhase.Redrafting? ==>
          r.snapshot.draft.phasePickCount == Min(255, s.snapshot.draft.phasePickCount + |ids|))
  }

  lemma FirstAdded(s: ReducerState, id: CardId, r: ReducerState, rest: seq<CardId>)
    requires Collecting(s) && IsRealCardId(id) && AddedCards(Apply(s, ArenaPick(id)), r, rest)
    requires rest == [] ==> r == Apply(s, ArenaPick(id))
    ensures AddedCards(s, r, [id] + rest)
  {
    hide IsRealCardId, ReducerSpec.Apply, Collecting, DeckCards, MidDraftResync, Accepted;
    CollectingAccepts(s, id);
    PickExtendsIff(s, id);
  }

  lemma FirstListed(s: ReducerState, id: CardId, r: ReducerState, rest: seq<CardId>)
    requires Collecting(s) && IsRealCardId(id) && ListedPicks(Apply(s, ArenaPick(id)), r, rest)
    ensures ListedPicks(s, r, [id] + rest)
  {
    hide IsRealCardId, ReducerSpec.Apply, Collecting, DeckCards, MidDraftResync, Accepted;
    CollectingAccepts(s, id);
    PickExtendsIff(s, id);
    PickAdvancesDraft(s, id);
  }

  /** A run of choices of real cards adds exactly these cards, as often as each was chosen, and lists them in order. */
  lemma {:induction false} PicksCollected(s: ReducerState, ids: seq<CardId>)
    requires Collecting(s) && forall id | id in ids :: IsRealCardId(id)
    ensures AddedCards(s, ApplyAll(s, Picks(ids)), ids) && ListedPicks(s, ApplyAll(s, Picks(ids)), ids)
    decreases ids
  {
    hide IsRealCardId, ReducerSpec.Apply, Collecting, AddedCards, ListedPicks;
    if ids == [] {
      NoPicks(s);
      NothingCollected(s);
    } else {
      var id, rest := ids[0], ids[1..];
      assert id in ids && ids == [id] + rest;
      assert Picks(ids) == [ArenaPick(id)] + Picks(rest) && Picks(ids)[1..] == Picks(rest);
      CollectingStays(s, id);
      PicksCollected(Apply(s, ArenaPick(id)), rest);
      NoPicks(Apply(s, ArenaPick(id)));
      FirstAdded(s, id, ApplyAll(s, Picks(ids)), rest);
      FirstListed(s, id, ApplyAll(s, Picks(ids)), rest);
    }
  }

  lemma NothingCollected(s: ReducerState)
    requires Collecting(s)
    ensures AddedCards(s, s, []) && ListedPicks(s, s, [])
  {
    hide DeckCards;
    assert s.snapshot.draft.selections + [] == s.snapshot.draft.selections;
  }

  lemma CollectingAccepts(s: ReducerState, id: CardId)
    requires Collecting(s) && IsRealCardId(id)
    ensures Accepted(s, id) && (!s.snapshot.run.deckSnapshotComplete || MidDraftResync(s))
  {
  }

  // Whole drafts.

  predicate RealCards(ids: seq<CardId>) {
    forall id | id in ids :: IsRealCardId(id)
  }

  lemma {:induction false} AddCardsCounts(counts: map<CardId, nat>, ids: seq<CardId>)
    ensures forall c :: Count(AddCards(counts, ids), c)
                     == Count(counts, c) + (if IsRealCardId(c) then multiset(ids)[c] else 0)
    ensures forall c :: c in AddCards(counts, ids) <==> c in counts || (IsRealCardId(c) && c in ids)
    decreases ids
  {
    hide IsRealCardId, AddCard;
    if ids != [] {
      assert ids == [ids[0]] + ids[1..];
      AddCardCounts(counts, ids[0]);
      AddCardsCounts(AddCard(counts, ids[0]), ids[1..]);
    }
  }

  /** What a resync leaves: every real card as often as it is listed. */
  lemma ResyncHolds(s: ReducerState, deck: string, hero: Option<CardId>, cards: seq<CardId>, mode: string)
    ensures var r := Apply(s, ArenaAuthoritativeResync(deck, hero, cards, Some(mode)));
      && (forall c :: Count(r.deckCounts, c) == if IsRealCardId(c) then multiset(cards)[c] else 0)
      && (forall c :: c in r.deckCounts <==> IsRealCardId(c) && c in cards)
      && r.snapshot.run == RunState(Some(deck), true, AuthoritativeResync, Some(mode), DraftPhase.FromLog(mode))
      && r.snapshot.heroClass == (if hero.Some? then HeroClass.OfHeroCard(hero.value) else None)
      && r.snapshot.deck == DeckCards(r.deckCounts)
      && r.configuredSlots == s.configuredSlots
      && r.inferredSlots == (if s.configuredSlots.None? then Some(SlotCount(r.deckCounts)) else None)
      && r.gameCounts == map[] && r.deckEntities == map[]
      && r.snapshot.draft.historyStatus.PartialResync? && !r.snapshot.draft.exactPhaseProgress
      && r.snapshot.draft.selections == [] && r.snapshot.draft.phasePickCount == 0
      && (DraftPhase.FromLog(mode).Redrafting? ==>
            r.snapshot.draft.redraft.stage.PickingOffers? && !r.snapshot.draft.redraft.pickProgressKnown)
  {
    hide DeckCards, DeckStateOf, PositiveCounts, AddCards, SlotCount, HeroClass.OfHeroCard, DraftPhase.FromLog, MissingSlots;
    AddCardsCounts(map[], cards);
  }

  /** A resync in the middle of a draft and the choices after it: the deck is the hydrated cards and the chosen ones, and
      is not complete once a choice was made. */
  lemma ResyncThenPicks(
    s: ReducerState, deck: string, hero: Option<CardId>, cards: seq<CardId>, mode: string, ids: seq<CardId>)
    requires RealCards(cards) && RealCards(ids)
    requires DraftPhase.FromLog(mode).Drafting? || DraftPhase.FromLog(mode).Redrafting?
    ensures var r := ApplyAll(Apply(s, ArenaAuthoritativeResync(deck, hero, cards, Some(mode))), Picks(ids));
      && (forall c :: Count(r.deckCounts, c) == multiset(cards)[c] + multiset(ids)[c])
      && r.snapshot.deck == DeckCards(r.deckCounts)
      && r.snapshot.draft.selections == ids
      && r.snapshot.run.draftDeckId == Some(deck) && (r.snapshot.run.deckSnapshotComplete <==> ids == [])
  {
    hide ReducerSpec.Apply, IsRealCardId, DeckCards, DraftPhase.FromLog, RealCards, ApplyAll;
    var hydrated := Apply(s, ArenaAuthoritativeResync(deck, hero, cards, Some(mode)));
    ResyncHolds(s, deck, hero, cards, mode);
    AllReal(cards);
    AllReal(ids);
    PicksCollected(hydrated, ids);
    NoPicks(hydrated);
    assert [] + ids == ids;
  }

  lemma AllReal(ids: seq<CardId>)
    requires RealCards(ids)
    ensures forall id | id in ids :: IsRealCardId(id)
  {
  }

  lemma NoPicks(s: ReducerState)
    ensures Picks([]) == [] && ApplyAll(s, Picks([])) == s
  {
  }

  lemma RunStartHolds(s: ReducerState, deck: string, mode: string)
    requires DraftPhase.FromLog(mode).Drafting?
    ensures var r := ApplyAll(s, [ArenaRunStarted(deck), ArenaDraftMode(mode)]);
      && r.deckCounts == map[] && r.gameCounts == map[] && r.observations == map[]
      && r.snapshot.run == RunState(Some(deck), false, Replay, Some(mode), DraftPhase.Drafting)
      && r.snapshot.heroClass.None? && r.snapshot.mode.Arena?
      && r.snapshot.draft == EMPTY_DRAFT.(historyStatus := HistoryStatus.Complete, exactPhaseProgress := true, pickNumber := 1)
      && r.policy == s.policy && r.configuredSlots == s.configuredSlots && r.inferredSlots.None?
  {
    hide DeckCards, DeckStateOf, PositiveCounts, DraftPhase.FromLog;
    var started := ArenaRunStarted(deck);
    var moded := ArenaDraftMode(mode);
    assert [started, moded][1..] == [moded] && [moded][1..] == [];
    assert ApplyAll(Apply(s, started), [moded]) == ApplyAll(Apply(Apply(s, started), moded), []);
    NoSlots();
  }

  lemma NoSlots()
    ensures SlotCount(map[]) == 0
  {
  }

  /** A draft seen from its start: the deck is exactly the chosen cards, in as many copies as chosen, the picks are listed
      in order, and the number of the next offer follows them. */
  lemma WholeDraft(s: ReducerState, deck: string, mode: string, ids: seq<CardId>)
    requires DraftPhase.FromLog(mode).Drafting? && RealCards(ids)
    ensures var r := ApplyAll(ApplyAll(s, [ArenaRunStarted(deck), ArenaDraftMode(mode)]), Picks(ids));
      && (forall c :: Count(r.deckCounts, c) == multiset(ids)[c])
      && r.snapshot.draft.selections == ids && r.snapshot.draft.historyStatus.Complete?
      && r.snapshot.draft.phasePickCount == Min(255, |ids|)
      && r.snapshot.run.draftDeckId == Some(deck) && r.snapshot.run.draftPhase.Drafting?
      && !r.snapshot.run.deckSnapshotComplete
  {
    hide ReducerSpec.Apply, IsRealCardId, DeckCards, DraftPhase.FromLog, RealCards, ApplyAll;
    var opened_ := ApplyAll(s, [ArenaRunStarted(deck), ArenaDraftMode(mode)]);
    RunStartHolds(s, deck, mode);
    AllReal(ids);
    PicksCollected(opened_, ids);
    assert [] + ids == ids;
  }
}
