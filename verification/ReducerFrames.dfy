/** What each kind of event leaves alone in the reducer. */
module ReducerFrames {
  import opened Prelude
  import opened ArenaState
  import opened ReducerSpec

  /** Only the draft changes. */
  predicate SameButDraft(s: ReducerState, r: ReducerState) {
    r == WithDraft(s, r.snapshot.draft)
  }

  /** Only the deck tables change. */
  predicate SameButDeck(s: ReducerState, r: ReducerState) {
    r == s.(deckCounts := r.deckCounts, deckEntities := r.deckEntities)
  }

  lemma ReviewTouchesDraft(s: ReducerState, event: GameEvent)
    requires IsReviewRecord(event)
    ensures SameButDraft(s, Mutate(s, event))
  {
    hide SameButDraft, ReviewStarted, DiscardSelected, DiscardsReplaced, ReviewCompleted;
    match event
    case ArenaRedraftDiscardReviewStarted => ReviewsTouchDraft(s);
    case ArenaRedraftDiscardSelected(id) => DiscardTouchesDraft(s, id);
    case ArenaRedraftDiscardSelectionsReplaced(ids) => DiscardsTouchDraft(s, ids);
    case ArenaRedraftDiscardReviewCompleted => ReviewsTouchDraft(s);
  }

  lemma ReviewsTouchDraft(s: ReducerState)
    ensures SameButDraft(s, ReviewStarted(s)) && SameButDraft(s, ReviewCompleted(s))
  {
  }

  lemma DiscardTouchesDraft(s: ReducerState, id: CardId)
    ensures SameButDraft(s, DiscardSelected(s, id))
  {
    hide IsRealCardId;
  }

  lemma DiscardsTouchDraft(s: ReducerState, ids: seq<CardId>)
    ensures SameButDraft(s, DiscardsReplaced(s, ids))
  {
    hide IsRealCardId;
  }

  lemma DeckRecordTouchesDeck(s: ReducerState, event: GameEvent)
    requires IsDeckRecord(event)
    ensures SameButDeck(s, Mutate(s, event))
  {
    hide AddCard, AddCards, IsRealCardId, IsDeckZone;
  }

  lemma SnapshotCardTouches(s: ReducerState, id: CardId)
    ensures var r := SnapshotCard(s, id);
      r == s.(snapshot := s.snapshot.(mode := GameMode.Arena), occurrences := r.occurrences, deckCounts := r.deckCounts)
  {
    hide IsRealCardId, PriorCount, SaturatingNext;
  }

  lemma SnapshotCompletedTouches(s: ReducerState)
    ensures var r := SnapshotCompleted(s);
      && r == s.(snapshot := r.snapshot, priorCounts := None, occurrences := map[], inferredSlots := r.inferredSlots)
      && r.snapshot == s.snapshot.(run := s.snapshot.run.(deckSnapshotComplete := true))
  {
    hide SlotCount;
  }

  /** A pick touches the mode, the draft, the completeness of the run's snapshot and the deck. */
  lemma PickTouches(s: ReducerState, id: CardId)
    ensures var r := Pick(s, id);
      && r == s.(snapshot := r.snapshot, deckCounts := r.deckCounts)
      && r.snapshot.draft == NotePick(s, id).snapshot.draft
      && r.snapshot == s.snapshot.(
           mode := GameMode.Arena, draft := r.snapshot.draft,
           run := s.snapshot.run.(deckSnapshotComplete := r.snapshot.run.deckSnapshotComplete))
      && (r.deckCounts == s.deckCounts || r.deckCounts == AddCard(s.deckCounts, id))
  {
    hide AddCard, CountPick;
    var noted := NotePick(s, id);
    ExtendTouches(noted, id);
  }

  lemma ExtendTouches(s: ReducerState, id: CardId)
    ensures var r := ExtendDeck(s, id);
      && r == s.(snapshot := r.snapshot, deckCounts := r.deckCounts)
      && r.snapshot == s.snapshot.(
           run := s.snapshot.run.(deckSnapshotComplete := r.snapshot.run.deckSnapshotComplete))
      && (r.deckCounts == s.deckCounts || r.deckCounts == AddCard(s.deckCounts, id))
  {
    hide AddCard;
  }
}
