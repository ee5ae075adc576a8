/** A Redraft from its first offer to the end of its review: what every step of it needs and leaves. */
module WholeRedraft {
  import opened Prelude
  import opened ArenaState
  import opened ReducerSpec
  import opened ReducerFrames
  import opened PickDecks

  // Stages.

  /** After `k` picks of a Redraft of this policy: offers are open until the rounds are used up, then the review is due. */
  predicate Picking(s: ReducerState, p: RedraftPolicy, k: nat) {
    && s.policy == Some(p) && s.snapshot.run.draftPhase.Redrafting? && !s.snapshot.run.deckSnapshotComplete
    && s.snapshot.draft.exactPhaseProgress && s.snapshot.draft.phasePickCount == k <= p.pickRounds
    && s.snapshot.draft.redraft == RedraftProgress(
         if k < p.pickRounds then PickingOffers else AwaitingDiscardReview,
         Some(p.pickRounds), true, k, Some(p.discardCount), [])
  }

  /** The review is open with these discards. */
  predicate Reviewing(s: ReducerState, p: RedraftPolicy, discards: seq<CardId>) {
    s.snapshot.draft.redraft == RedraftProgress(
      ReviewingDiscards, Some(p.pickRounds), true, p.pickRounds, Some(p.discardCount), discards)
  }

  /** Entering Redraft opens its first round; the deck stays, but is open for the picks. */
  lemma RedraftEntered(s: ReducerState, mode: string, p: RedraftPolicy)
    requires s.policy == Some(p) && p.Valid()
    requires DraftPhase.FromLog(mode).Redrafting? && !s.snapshot.run.draftPhase.Redrafting?
    ensures var r := Apply(s, ArenaDraftMode(mode));
      && Picking(r, p, 0) && r.deckCounts == s.deckCounts
      && r.snapshot.run == s.snapshot.run.(
           draftMode := Some(mode), draftPhase := DraftPhase.Redrafting, deckSnapshotComplete := false)
      && r.snapshot.draft.currentOffer.None? && r.snapshot.draft.pickNumber == 1
      && r.snapshot.draft.selections == s.snapshot.draft.selections
  {
    hide DraftPhase.FromLog, DeckCards, DeckStateOf, PositiveCounts, SlotCount, MissingSlots;
  }

  /** Entering Drafting opens a new count of picks and no Redraft; a mode line of the phase already known changes nothing
      but its text. */
  lemma DraftingEntered(s: ReducerState, mode: string)
    requires DraftPhase.FromLog(mode).Drafting?
    ensures var r := Apply(s, ArenaDraftMode(mode));
      && r.deckCounts == s.deckCounts
      && (!s.snapshot.run.draftPhase.Drafting? ==>
            && r.snapshot.run == s.snapshot.run.(
                 draftMode := Some(mode), draftPhase := DraftPhase.Drafting, deckSnapshotComplete := false)
            && r.snapshot.draft == s.snapshot.draft.(
                 phasePickCount := 0, pickNumber := if s.snapshot.draft.exactPhaseProgress then 1 else 0,
                 currentOffer := None, offers := [], selected := None, redraft := NO_REDRAFT))
      && (s.snapshot.run.draftPhase.Drafting? ==>
            r.snapshot.run == s.snapshot.run.(draftMode := Some(mode)) && r.snapshot.draft == s.snapshot.draft)
  {
    hide DraftPhase.FromLog, DeckCards, DeckStateOf, PositiveCounts, SlotCount, MissingSlots;
  }

  /** Closing the deck editor on a deck that holds cards: it is complete if it has the expected size; without a configured
      size, the size it has after a draft is the expected one. A Redraft is over. */
  lemma EditorClosed(s: ReducerState, mode: string)
    requires DraftPhase.FromLog(mode).ActiveDeck? && SlotCount(s.deckCounts) > 0
    ensures var r, previous := Apply(s, ArenaDraftMode(mode)), s.snapshot.run.draftPhase;
      && r.deckCounts == s.deckCounts && r.snapshot.run.draftPhase.ActiveDeck? && r.snapshot.run.draftMode == Some(mode)
      && r.inferredSlots == (if s.configuredSlots.None? && !previous.Redrafting? then Some(SlotCount(s.deckCounts))
                             else s.inferredSlots)
      && (r.snapshot.run.deckSnapshotComplete <==>
            if s.configuredSlots.Some? then s.configuredSlots == Some(SlotCount(s.deckCounts))
            else !previous.Redrafting? || s.inferredSlots == Some(SlotCount(s.deckCounts)))
      && r.snapshot.draft == (
           if previous.Redrafting?
           then s.snapshot.draft.(redraft := s.snapshot.draft.redraft.(stage := RedraftStage.Complete))
           else s.snapshot.draft)
  {
    hide DraftPhase.FromLog, Sync, SlotCount, EnterOfferPhase, DeckEditorClosed;
    var noted := s.(snapshot := s.snapshot.(
      mode := GameMode.Arena, run := s.snapshot.run.(draftMode := Some(mode), draftPhase := DraftPhase.ActiveDeck)));
    EditorIs(noted, s.snapshot.run.draftPhase);
    SyncedDraft(DraftMode(s, mode));
  }

  /** A mode line of no other phase, or about an empty deck, changes the mode and the phase and nothing else. */
  lemma OtherModeLines(s: ReducerState, mode: string)
    requires var phase := DraftPhase.FromLog(mode);
      !phase.Drafting? && !phase.Redrafting? && (phase.ActiveDeck? ==> SlotCount(s.deckCounts) == 0)
    ensures Apply(s, ArenaDraftMode(mode)) == Sync(s.(snapshot := s.snapshot.(
      mode := GameMode.Arena,
      run := s.snapshot.run.(draftMode := Some(mode), draftPhase := DraftPhase.FromLog(mode)))))
  {
    hide DraftPhase.FromLog, Sync, SlotCount, EnterOfferPhase, DeckEditorClosed;
  }

  lemma EditorIs(s: ReducerState, previous: DraftPhase)
    ensures var r := DeckEditorClosed(s, previous);
      && r.deckCounts == s.deckCounts
      && r.snapshot.run == s.snapshot.run.(deckSnapshotComplete := r.snapshot.run.deckSnapshotComplete)
      && r.inferredSlots == (if s.configuredSlots.None? && !previous.Redrafting? then Some(SlotCount(s.deckCounts))
                             else s.inferredSlots)
      && (r.snapshot.run.deckSnapshotComplete <==>
            if s.configuredSlots.Some? then s.configuredSlots == Some(SlotCount(s.deckCounts))
            else !previous.Redrafting? || s.inferredSlots == Some(SlotCount(s.deckCounts)))
      && r.snapshot.draft == (
           if previous.Redrafting?
           then s.snapshot.draft.(redraft := s.snapshot.draft.redraft.(stage := RedraftStage.Complete))
           else s.snapshot.draft)
  {
    hide SlotCount;
  }

  // Picks.

  lemma PickCounted(s: ReducerState, p: RedraftPolicy, k: nat, id: CardId)
    requires Picking(s, p, k) && k < p.pickRounds && IsRealCardId(id)
    ensures Picking(Apply(s, ArenaPick(id)), p, k + 1)
    ensures forall c :: Count(Apply(s, ArenaPick(id)).deckCounts, c) == Count(s.deckCounts, c) + (if c == id then 1 else 0)
  {
    hide IsRealCardId, Sync, Pick, DeckCards;
    PickExtendsIff(s, id);
    PickTouches(s, id);
    SyncedDraft(Pick(s, id));
  }

  /** Once the rounds are used up, a further choice is no pick. */
  lemma NoFurtherPick(s: ReducerState, p: RedraftPolicy, id: CardId)
    requires Picking(s, p, p.pickRounds)
    ensures Apply(s, ArenaPick(id)) == s
  {
    hide IsRealCardId;
  }

  lemma {:induction false} PicksCounted(s: ReducerState, p: RedraftPolicy, k: nat, ids: seq<CardId>)
    requires Picking(s, p, k) && k + |ids| <= p.pickRounds && RealCards(ids)
    ensures var r := ApplyAll(s, Picks(ids));
      && Picking(r, p, k + |ids|)
      && forall c :: Count(r.deckCounts, c) == Count(s.deckCounts, c) + multiset(ids)[c]
    decreases ids
  {
    hide IsRealCardId, ReducerSpec.Apply, Picking;
    if ids != [] {
      var id, rest := ids[0], ids[1..];
      assert id in ids && ids == [id] + rest;
      assert Picks(ids)[0] == ArenaPick(id) && Picks(ids)[1..] == Picks(rest);
      PickCounted(s, p, k, id);
      PicksCounted(Apply(s, ArenaPick(id)), p, k + 1, rest);
    }
  }

  // The review.

  /** The review opens when the rounds are used up, and not before. */
  lemma ReviewOpensIff(s: ReducerState, p: RedraftPolicy, k: nat)
    requires Picking(s, p, k)
    ensures var r := Apply(s, ArenaRedraftDiscardReviewStarted);
      && (if k == p.pickRounds then Reviewing(r, p, []) && r.snapshot.draft.currentOffer.None? && r.snapshot.draft.selected.None?
          else r.snapshot.draft == s.snapshot.draft)
      && r.deckCounts == s.deckCounts
  {
    hide DeckCards, DeckStateOf, PositiveCounts;
  }

  /** A discard is noted while the review is open, the card is real and the policy leaves room. */
  lemma DiscardNotedIff(s: ReducerState, p: RedraftPolicy, discards: seq<CardId>, id: CardId)
    requires Reviewing(s, p, discards)
    ensures var r := Apply(s, ArenaRedraftDiscardSelected(id));
      && Reviewing(r, p, if IsRealCardId(id) && |discards| < p.discardCount then discards + [id] else discards)
      && r.deckCounts == s.deckCounts
  {
    hide IsRealCardId, DeckCards, DeckStateOf, PositiveCounts;
  }

  /** The whole selection can be replaced by real cards within the policy. */
  lemma DiscardsReplacedIff(s: ReducerState, p: RedraftPolicy, discards: seq<CardId>, ids: seq<CardId>)
    requires Reviewing(s, p, discards)
    ensures var r := Apply(s, ArenaRedraftDiscardSelectionsReplaced(ids));
      && Reviewing(r, p, if RealCards(ids) && |ids| <= p.discardCount then ids else discards)
      && r.deckCounts == s.deckCounts
  {
    hide IsRealCardId, DeckCards, DeckStateOf, PositiveCounts;
  }

  /** The review is complete exactly with the discards that the policy asks for. */
  lemma ReviewClosesIff(s: ReducerState, p: RedraftPolicy, discards: seq<CardId>)
    requires Reviewing(s, p, discards)
    ensures var r := Apply(s, ArenaRedraftDiscardReviewCompleted);
      && r.snapshot.draft == (
           if |discards| == p.discardCount
           then s.snapshot.draft.(redraft := s.snapshot.draft.redraft.(stage := RedraftStage.Complete))
           else s.snapshot.draft)
      && r.deckCounts == s.deckCounts
  {
    hide DeckCards, DeckStateOf, PositiveCounts;
  }

  function Discards(ids: seq<CardId>): seq<GameEvent> {
    seq(|ids|, i requires 0 <= i < |ids| => ArenaRedraftDiscardSelected(ids[i]))
  }

  lemma {:induction false} DiscardsNoted(s: ReducerState, p: RedraftPolicy, done: seq<CardId>, ids: seq<CardId>)
    requires Reviewing(s, p, done) && |done| + |ids| <= p.discardCount && RealCards(ids)
    ensures var r := ApplyAll(s, Discards(ids)); Reviewing(r, p, done + ids) && r.deckCounts == s.deckCounts
    decreases ids
  {
    hide IsRealCardId, ReducerSpec.Apply, Reviewing;
    if ids == [] {
      assert done + ids == done;
    } else {
      var id, rest := ids[0], ids[1..];
      assert id in ids && Discards(ids)[0] == ArenaRedraftDiscardSelected(id) && Discards(ids)[1..] == Discards(rest);
      DiscardNotedIff(s, p, done, id);
      DiscardsNoted(Apply(s, ArenaRedraftDiscardSelected(id)), p, done + [id], rest);
      assert done + [id] + rest == done + ids;
    }
  }

  // The whole.

  /** A Redraft by its policy: as many picks as it has rounds go into the deck, then the review takes as many discards as
      the policy asks for, in order, and is complete; the discards stay a list and leave the deck alone. */
  lemma WholeRedraft(s: ReducerState, mode: string, p: RedraftPolicy, picks: seq<CardId>, discards: seq<CardId>)
    requires s.policy == Some(p) && p.Valid()
    requires DraftPhase.FromLog(mode).Redrafting? && !s.snapshot.run.draftPhase.Redrafting?
    requires |picks| == p.pickRounds && RealCards(picks) && |discards| == p.discardCount && RealCards(discards)
    ensures var picked := ApplyAll(Apply(s, ArenaDraftMode(mode)), Picks(picks));
      var reviewed := ApplyAll(Apply(picked, ArenaRedraftDiscardReviewStarted), Discards(discards));
      var closed := Apply(reviewed, ArenaRedraftDiscardReviewCompleted);
      && picked.snapshot.draft.redraft.stage.AwaitingDiscardReview?
      && closed.snapshot.draft.redraft.stage.Complete? && closed.snapshot.draft.redraft.discardedCardIds == discards
      && forall c :: Count(closed.deckCounts, c) == Count(s.deckCounts, c) + multiset(picks)[c]
  {
    hide ReducerSpec.Apply, IsRealCardId, DraftPhase.FromLog, RealCards, ApplyAll, Picks, Discards;
    var entered := Apply(s, ArenaDraftMode(mode));
    RedraftEntered(s, mode, p);
    PicksCounted(entered, p, 0, picks);
    var picked := ApplyAll(entered, Picks(picks));
    ReviewOpensIff(picked, p, p.pickRounds);
    var opened_ := Apply(picked, ArenaRedraftDiscardReviewStarted);
    DiscardsNoted(opened_, p, [], discards);
    assert [] + discards == discards;
    ReviewClosesIff(ApplyAll(opened_, Discards(discards)), p, discards);
  }
}
