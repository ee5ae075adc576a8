/** Which manual actions and policies are taken, and what they leave. */
module ManualActions {
  import opened Prelude
  import opened Ordered
  import opened ArenaState
  import opened ReducerSpec
  import RedraftStages
  import DeckRecords
  import PickDecks

  // Offers.

  /** An offer of the draft in a round that is open: an ordinary one while drafting, a Redraft pick in a known open round. */
  predicate RoundTakes(s: ReducerState, kind: OfferKind) {
    var redraft := s.snapshot.draft.redraft;
    || (s.snapshot.run.draftPhase.Drafting? && !kind.RedraftPick?)
    || (s.snapshot.run.draftPhase.Redrafting? && kind.RedraftPick? && redraft.stage.PickingOffers? && redraft.pickProgressKnown
        && redraft.pickRoundsRequired.Some? && redraft.pickRoundsCompleted < redraft.pickRoundsRequired.value)
  }

  /** A manual offer is taken if and only if it has items, all of them are named, and the round takes it. */
  lemma OfferTakenIff(s: ReducerState, kind: OfferKind, items: seq<OfferItem>)
    ensures ManualEvent(s, ReplaceOffer(kind, items)).Ok? <==>
      items != [] && (forall i | 0 <= i < |items| :: DeckRecords.Named(items[i])) && RoundTakes(s, kind)
    ensures ManualEvent(s, ReplaceOffer(kind, items)).Ok? ==>
      ManualEvent(s, ReplaceOffer(kind, items)).value ==
        ArenaOffer(Some(s.snapshot.draft.NextPickNumber()), kind, items, 1.0, Manual)
  {
    hide OfferItem.Valid, DeckRecords.Named;
    forall item: OfferItem ensures item.Valid() <==> DeckRecords.Named(item) {
      DeckRecords.NamedIff(item);
    }
  }

  lemma {:induction false} FirstInvalidIs(items: seq<OfferItem>, from: nat)
    requires from <= |items|
    ensures var first := FirstInvalidItem(items, from);
      first.Some? ==> from <= first.value < |items| && forall i | from <= i < first.value :: items[i].Valid()
    decreases |items| - from
  {
    hide OfferItem.Valid;
    if from < |items| && items[from].Valid() {
      FirstInvalidIs(items, from + 1);
    }
  }

  /** A refused offer is empty, else names its first bad item, else comes outside a draft, else has the wrong kind or comes
      while Redraft offers are withheld. */
  lemma OfferRefusal(s: ReducerState, kind: OfferKind, items: seq<OfferItem>)
    requires ManualEvent(s, ReplaceOffer(kind, items)).Err?
    ensures var phase := s.snapshot.run.draftPhase;
      match ManualEvent(s, ReplaceOffer(kind, items)).error
      case EmptyOffer => items == []
      case InvalidOfferItem(i) => i < |items| && !items[i].Valid() && forall j | 0 <= j < i :: items[j].Valid()
      case NotInDraftPhase(at) => at == phase && !phase.Drafting? && !phase.Redrafting?
      case RedraftOfferCaptureWithheld(stage) =>
        && phase.Redrafting? && stage == s.snapshot.draft.redraft.stage && !RoundTakes(s, RedraftPick)
      case InvalidOfferKindForPhase(at, refused) =>
        && at == phase && refused == kind
        && ((phase.Drafting? && kind.RedraftPick?) || (phase.Redrafting? && !kind.RedraftPick? && RoundTakes(s, RedraftPick)))
      case _ => false
  {
    hide OfferItem.Valid;
    FirstInvalidIs(items, 0);
  }

  // The review.

  /** The review begins when it is due; it takes real discards up to the known number, and closes with exactly as many. */
  lemma ReviewTakenIff(s: ReducerState, ids: seq<CardId>)
    ensures var redraft := s.snapshot.draft.redraft;
      var limit := redraft.discardCountRequired;
      && (ManualEvent(s, BeginDiscardReview).Ok? <==> redraft.stage.AwaitingDiscardReview?)
      && (ManualEvent(s, SetDiscardSelections(ids)).Ok? <==>
            redraft.stage.ReviewingDiscards? && limit.Some? && |ids| <= limit.value && PickDecks.RealCards(ids))
      && (ManualEvent(s, CompleteDiscardReview).Ok? <==>
            redraft.stage.ReviewingDiscards? && limit == Some(|redraft.discardedCardIds|))
  {
    hide IsRealCardId;
    if FirstUnrealCard(ids, 0).None? {
      forall id | id in ids ensures IsRealCardId(id) {
        var i :| 0 <= i < |ids| && ids[i] == id;
      }
    } else {
      assert ids[FirstUnrealCard(ids, 0).value] in ids;
    }
  }

  /** A review that may begin is open afterwards, with nothing on offer. */
  lemma BeginTakesEffect(s: ReducerState)
    requires ManualEvent(s, BeginDiscardReview).Ok?
    ensures ApplyManual(s, BeginDiscardReview).snapshot.draft == s.snapshot.draft.(
      redraft := s.snapshot.draft.redraft.(stage := ReviewingDiscards), currentOffer := None, offers := [], selected := None)
  {
    hide Sync;
    PickDecks.SyncedDraft(ReviewStarted(s));
  }

  /** Discards that are taken replace those selected before. */
  lemma SelectionTakesEffect(s: ReducerState, ids: seq<CardId>)
    requires ManualEvent(s, SetDiscardSelections(ids)).Ok?
    ensures ApplyManual(s, SetDiscardSelections(ids)).snapshot.draft == s.snapshot.draft.(
      redraft := s.snapshot.draft.redraft.(discardedCardIds := ids))
  {
    hide IsRealCardId, Sync;
    ReviewTakenIff(s, ids);
    PickDecks.SyncedDraft(DiscardsReplaced(s, ids));
  }

  /** A review that may close is complete afterwards. */
  lemma CompletionTakesEffect(s: ReducerState)
    requires ManualEvent(s, CompleteDiscardReview).Ok?
    ensures ApplyManual(s, CompleteDiscardReview).snapshot.draft == s.snapshot.draft.(
      redraft := s.snapshot.draft.redraft.(stage := RedraftStage.Complete))
  {
    hide Sync;
    PickDecks.SyncedDraft(ReviewCompleted(s));
  }

  // The policy.

  /** The number of cards still missing from a deck of known size, when it fits a byte. */
  ghost function Missing(s: ReducerState): Option<nat> {
    var expected := if s.configuredSlots.Some? then s.configuredSlots else s.inferredSlots;
    var held := if Total(s.deckCounts) <= 65535 then Total(s.deckCounts) else 65535;
    if expected.None? || held > expected.value || expected.value - held > 255 then None else Some(expected.value - held)
  }

  /** The rounds that a Redraft without a policy must have: what is missing now and, in a Redraft followed from its start,
      what was picked already. */
  ghost function Recovered(s: ReducerState): Option<nat> {
    var missing := Missing(s);
    if missing.None? then None
    else
      var rounds := missing.value
        + (if s.snapshot.run.draftPhase.Redrafting? && s.snapshot.draft.redraft.pickProgressKnown
           then s.snapshot.draft.phasePickCount else 0);
      if 0 < rounds < 256 then Some(rounds) else None
  }

  lemma RecoveredIs(s: ReducerState)
    ensures RecoveredReplacements(s) == Recovered(s)
  {
    hide Total;
  }

  /** A policy is refused if it asks for nothing. One that is taken, or none at all, sets the rounds and discards of the
      current Redraft: those of the policy, or those recovered from the deck. With known progress the offers are closed
      exactly if the rounds are used up, and open again if they are not; a review that has begun stays. */
  lemma PolicyTaken(s: ReducerState, policy: Option<RedraftPolicy>)
    ensures var r := SetPolicy(s, policy);
      if policy.Some? && (policy.value.pickRounds == 0 || policy.value.discardCount == 0) then r == s
      else
        var before, after := s.snapshot.draft.redraft, r.snapshot.draft.redraft;
        && r.policy == policy && r.deckCounts == s.deckCounts && r.snapshot.run == s.snapshot.run
        && after.pickRoundsRequired == (if policy.Some? then Some(policy.value.pickRounds) else Recovered(s))
        && after.discardCountRequired == (if policy.Some? then Some(policy.value.discardCount) else Recovered(s))
        && after.pickProgressKnown == before.pickProgressKnown && after.discardedCardIds == before.discardedCardIds
        && after.pickRoundsCompleted == (if before.pickProgressKnown then s.snapshot.draft.phasePickCount
                                         else before.pickRoundsCompleted)
        && var usedUp := after.pickRoundsRequired.Some? && after.pickRoundsCompleted >= after.pickRoundsRequired.value;
        && after.stage == (
             if !before.pickProgressKnown then before.stage
             else if usedUp && before.stage.PickingOffers? then AwaitingDiscardReview
             else if !usedUp && before.stage.AwaitingDiscardReview? then PickingOffers
             else before.stage)
        && (after.stage == before.stage || after.stage.PickingOffers? ==>
              r.snapshot.draft == s.snapshot.draft.(redraft := after))
        && (after.stage.AwaitingDiscardReview? && before.stage.PickingOffers? ==>
              r.snapshot.draft.currentOffer.None? && r.snapshot.draft.offers == [] && r.snapshot.draft.selected.None?)
  {
    hide DeckCards, DeckStateOf, RecoveredReplacements, Recovered;
    var t := s.(policy := policy);
    RecoveredIs(t);
    SameRecovered(s, t);
  }

  lemma SameRecovered(s: ReducerState, t: ReducerState)
    requires t == s.(policy := t.policy)
    ensures Recovered(s) == Recovered(t)
  {
    hide Total;
  }
}
