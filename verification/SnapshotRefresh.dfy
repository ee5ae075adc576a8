/** What a deck snapshot does to the deck: Started, the card lines, Completed. */
module SnapshotRefresh {
  import opened Prelude
  import opened ArenaState
  import opened ReducerSpec
  import ReducerFrames

  function CardLines(cards: seq<CardId>): seq<GameEvent> {
    seq(|cards|, i requires 0 <= i < |cards| => ArenaDeckSnapshotCard(cards[i]))
  }

  function Occurrences(cards: seq<CardId>, id: CardId): nat {
    if cards == [] then 0 else (if cards[0] == id then 1 else 0) + Occurrences(cards[1..], id)
  }

  lemma {:induction false} OccurrencesAreMultiplicity(cards: seq<CardId>, id: CardId)
    ensures Occurrences(cards, id) == multiset(cards)[id]
    ensures Occurrences(cards, id) > 0 <==> id in cards
  {
    if cards != [] {
      OccurrencesAreMultiplicity(cards[1..], id);
      assert cards == [cards[0]] + cards[1..];
    }
  }

  /** What the card lines seen so far have made of one card's deck and occurrence entries. */
  predicate ListedCard(s: ReducerState, prior: Option<map<CardId, nat>>, cards: seq<CardId>, id: CardId) {
    var listed := IsRealCardId(id) && Occurrences(cards, id) > 0;
    && (id in s.deckCounts <==> listed) && (id in s.occurrences <==> listed)
    && (listed ==>
          && s.occurrences[id] == Min(Occurrences(cards, id), 255)
          && s.deckCounts[id] == Max(PriorCount(prior, id), Min(Occurrences(cards, id), 255)))
  }

  ghost predicate Listed(s: ReducerState, prior: Option<map<CardId, nat>>, cards: seq<CardId>) {
    s.priorCounts == prior && forall id :: ListedCard(s, prior, cards, id)
  }

  lemma {:induction false} OccurrencesSnoc(cards: seq<CardId>, last: CardId, id: CardId)
    ensures Occurrences(cards + [last], id) == Occurrences(cards, id) + (if last == id then 1 else 0)
  {
    if cards == [] {
      assert cards + [last] == [last];
    } else {
      assert (cards + [last])[1..] == cards[1..] + [last];
      OccurrencesSnoc(cards[1..], last, id);
    }
  }

  lemma ListOne(s: ReducerState, prior: Option<map<CardId, nat>>, cards: seq<CardId>, card: CardId)
    requires Listed(s, prior, cards)
    ensures Listed(SnapshotCard(s, card), prior, cards + [card])
  {
    hide IsRealCardId, Occurrences, PriorCount;
    forall id ensures ListedCard(SnapshotCard(s, card), prior, cards + [card], id) {
      assert ListedCard(s, prior, cards, id);
      OccurrencesSnoc(cards, card, id);
    }
  }

  /** Only the deck tables move while cards are listed. */
  ghost predicate SameBase(s: ReducerState, r: ReducerState) {
    r == Sync(s.(deckCounts := r.deckCounts, occurrences := r.occurrences))
  }

  lemma CardLineEffect(s: ReducerState, card: CardId)
    ensures var r := Apply(s, ArenaDeckSnapshotCard(card));
      && r.deckCounts == SnapshotCard(s, card).deckCounts
      && r.occurrences == SnapshotCard(s, card).occurrences
      && r.priorCounts == s.priorCounts
      && (s.snapshot.mode.Arena? ==> SameBase(s, r))
  {
    hide IsRealCardId, SnapshotCard, DeckCards, DeckStateOf, PositiveCounts;
    ReducerFrames.SnapshotCardTouches(s, card);
  }

  lemma {:induction false} ListCards(
    s: ReducerState, prior: Option<map<CardId, nat>>, done: seq<CardId>, cards: seq<CardId>)
    requires Listed(s, prior, done) && s.snapshot.mode.Arena? && Sync(s) == s
    ensures var r := ApplyAll(s, CardLines(cards));
      Listed(r, prior, done + cards) && SameBase(s, r)
    decreases cards
  {
    hide ReducerSpec.Apply, Listed;
    if cards == [] {
      assert done + cards == done;
    } else {
      var next := Apply(s, ArenaDeckSnapshotCard(cards[0]));
      CardLineEffect(s, cards[0]);
      ListOne(s, prior, done, cards[0]);
      SameListing(SnapshotCard(s, cards[0]), next, prior, done + [cards[0]]);
      assert CardLines(cards)[1..] == CardLines(cards[1..]);
      assert done + [cards[0]] + cards[1..] == done + cards;
      SyncAbsorbs(s, next.deckCounts, next.occurrences);
      ListCards(next, prior, done + [cards[0]], cards[1..]);
      var r := ApplyAll(s, CardLines(cards));
      SyncAbsorbs2(s, next, r.deckCounts, r.occurrences);
    }
  }

  lemma SameListing(s: ReducerState, r: ReducerState, prior: Option<map<CardId, nat>>, cards: seq<CardId>)
    requires Listed(s, prior, cards)
    requires r.deckCounts == s.deckCounts && r.occurrences == s.occurrences && r.priorCounts == s.priorCounts
    ensures Listed(r, prior, cards)
  {
    forall id ensures ListedCard(r, prior, cards, id) {
      assert ListedCard(s, prior, cards, id);
    }
  }

  lemma SyncAbsorbs(s: ReducerState, counts: map<CardId, nat>, occurrences: map<CardId, U8>)
    ensures var r := Sync(s.(deckCounts := counts, occurrences := occurrences));
      Sync(r) == r && r.snapshot.mode == s.snapshot.mode
  {
    hide DeckCards, SlotCount;
    var t := s.(deckCounts := counts, occurrences := occurrences);
    assert CompletenessOf(Sync(t)) == CompletenessOf(t);
  }

  lemma SyncAbsorbs2(s: ReducerState, next: ReducerState, counts: map<CardId, nat>, occurrences: map<CardId, U8>)
    requires SameBase(s, next)
    ensures Sync(next.(deckCounts := counts, occurrences := occurrences))
         == Sync(s.(deckCounts := counts, occurrences := occurrences))
  {
    hide DeckCards, SlotCount;
    var a, b := next.(deckCounts := counts, occurrences := occurrences), s.(deckCounts := counts, occurrences := occurrences);
    assert CompletenessOf(a) == CompletenessOf(b);
  }

  ghost function Refreshed(s: ReducerState, id: string, hero: Option<CardId>, cards: seq<CardId>): ReducerState {
    Apply(ApplyAll(Apply(s, ArenaDeckSnapshotStarted(id, hero)), CardLines(cards)), ArenaDeckSnapshotCompleted)
  }

  lemma SnapshotOpens(s: ReducerState, id: string, hero: Option<CardId>)
    ensures var r := Apply(s, ArenaDeckSnapshotStarted(id, hero));
      && Listed(r, if RefreshesKnownDeck(s, id) then Some(s.deckCounts) else None, [])
      && r.snapshot.mode.Arena? && Sync(r) == r
  {
    hide HeroClass.OfHeroCard, DeckCards, SlotCount, IsRealCardId;
    var t := SnapshotStarted(s, id, hero);
    assert CompletenessOf(Sync(t)) == CompletenessOf(t);
  }

  lemma SnapshotCloses(s: ReducerState)
    ensures Apply(s, ArenaDeckSnapshotCompleted).deckCounts == s.deckCounts
  {
  }

  /** The listing is of the deck of the current run, while that is being played or redrafted. */
  predicate SameDeckAgain(s: ReducerState, id: string) {
    s.snapshot.run.draftDeckId == Some(id) && s.snapshot.run.draftPhase in {DraftPhase.ActiveDeck, DraftPhase.Redrafting}
  }

  lemma SameDeckIff(s: ReducerState, id: string)
    ensures RefreshesKnownDeck(s, id) <==> SameDeckAgain(s, id)
  {
  }

  /** The refreshed deck: exactly the listed real cards; each keeps its proven count, or one, unless the
      snapshot lists it more often. Proven counts survive only a refresh of the active or Redrafting deck. */
  lemma RefreshKeepsProvenCopies(s: ReducerState, id: string, hero: Option<CardId>, cards: seq<CardId>)
    ensures var deck := Refreshed(s, id, hero, cards).deckCounts;
      && (forall card :: card in deck <==> IsRealCardId(card) && card in cards)
      && (forall card | card in deck ::
            var listed := Min(multiset(cards)[card], 255);
            deck[card] ==
              if SameDeckAgain(s, id) && card in s.deckCounts then Max(s.deckCounts[card], listed)
              else listed)
  {
    hide ReducerSpec.Apply, IsRealCardId, Occurrences, RefreshesKnownDeck, SameDeckAgain;
    SameDeckIff(s, id);
    var prior := if RefreshesKnownDeck(s, id) then Some(s.deckCounts) else None;
    var started := Apply(s, ArenaDeckSnapshotStarted(id, hero));
    SnapshotOpens(s, id, hero);
    ListCards(started, prior, [], cards);
    assert [] + cards == cards;
    SnapshotCloses(ApplyAll(started, CardLines(cards)));
    var deck := Refreshed(s, id, hero, cards).deckCounts;
    forall card ensures card in deck <==> IsRealCardId(card) && card in cards
      ensures card in deck ==> deck[card] == Max(PriorCount(prior, card), Min(multiset(cards)[card], 255))
      ensures card in deck ==> multiset(cards)[card] > 0
    {
      OccurrencesAreMultiplicity(cards, card);
      assert ListedCard(ApplyAll(started, CardLines(cards)), prior, cards, card);
    }
  }

  /** The order of the card lines does not matter to any field of the reducer. */
  lemma RefreshIgnoresOrder(s: ReducerState, id: string, hero: Option<CardId>, a: seq<CardId>, b: seq<CardId>)
    requires multiset(a) == multiset(b)
    ensures Refreshed(s, id, hero, a) == Refreshed(s, id, hero, b)
  {
    hide ReducerSpec.Apply, IsRealCardId, Occurrences, RefreshesKnownDeck, Sync;
    var prior := if RefreshesKnownDeck(s, id) then Some(s.deckCounts) else None;
    var started := Apply(s, ArenaDeckSnapshotStarted(id, hero));
    SnapshotOpens(s, id, hero);
    ListCards(started, prior, [], a);
    ListCards(started, prior, [], b);
    assert [] + a == a && [] + b == b;
    var ra, rb := ApplyAll(started, CardLines(a)), ApplyAll(started, CardLines(b));
    forall card
      ensures card in ra.deckCounts <==> card in rb.deckCounts
      ensures card in ra.deckCounts ==> ra.deckCounts[card] == rb.deckCounts[card]
      ensures card in ra.occurrences <==> card in rb.occurrences
      ensures card in ra.occurrences ==> ra.occurrences[card] == rb.occurrences[card]
    {
      OccurrencesAreMultiplicity(a, card);
      OccurrencesAreMultiplicity(b, card);
      assert ListedCard(ra, prior, a, card) && ListedCard(rb, prior, b, card);
    }
    assert ra.deckCounts == rb.deckCounts;
    assert ra.occurrences == rb.occurrences;
  }

  /** What a listing leaves besides the deck: its run and hero, an authoritative deck, and, unless a size is configured or
      was known for this deck before, the size of what was listed. */
  lemma RefreshKnowsSize(s: ReducerState, id: string, hero: Option<CardId>, cards: seq<CardId>)
    ensures var r := Refreshed(s, id, hero, cards);
      && r.snapshot.run.draftDeckId == Some(id) && r.snapshot.run.deckSnapshotComplete
      && r.snapshot.heroClass == (
           if hero.Some? then HeroClass.OfHeroCard(hero.value)
           else if s.snapshot.run.draftDeckId in {None, Some(id)} then s.snapshot.heroClass
           else None)
      && r.snapshot.draft.redraft == NO_REDRAFT
      && r.priorCounts.None? && r.occurrences == map[] && r.configuredSlots == s.configuredSlots
      && r.inferredSlots == (
           if SameDeckAgain(s, id) && s.inferredSlots.Some? then s.inferredSlots
           else if s.configuredSlots.Some? then None
           else Some(SlotCount(r.deckCounts)))
  {
    hide ReducerSpec.Apply, IsRealCardId, Occurrences, SlotCount, Sync, HeroClass.OfHeroCard;
    var prior := if RefreshesKnownDeck(s, id) then Some(s.deckCounts) else None;
    var started := Apply(s, ArenaDeckSnapshotStarted(id, hero));
    SnapshotOpens(s, id, hero);
    OpenedFor(s, id, hero);
    ListCards(started, prior, [], cards);
    assert [] + cards == cards;
    var listed := ApplyAll(started, CardLines(cards));
    SyncedSame(started.(deckCounts := listed.deckCounts, occurrences := listed.occurrences));
    ClosedAs(listed);
  }

  lemma SyncedSame(s: ReducerState)
    ensures var r := Sync(s);
      && r == s.(snapshot := r.snapshot) && r.snapshot.run == s.snapshot.run && r.snapshot.draft == s.snapshot.draft
      && r.snapshot.heroClass == s.snapshot.heroClass
  {
    hide DeckCards, DeckStateOf, PositiveCounts;
  }

  lemma OpenedFor(s: ReducerState, id: string, hero: Option<CardId>)
    ensures var r := Apply(s, ArenaDeckSnapshotStarted(id, hero));
      && r.snapshot.run.draftDeckId == Some(id)
      && r.snapshot.heroClass == (
           if hero.Some? then HeroClass.OfHeroCard(hero.value)
           else if s.snapshot.run.draftDeckId in {None, Some(id)} then s.snapshot.heroClass
           else None)
      && r.snapshot.draft.redraft == NO_REDRAFT && r.configuredSlots == s.configuredSlots
      && r.inferredSlots == if RefreshesKnownDeck(s, id) then s.inferredSlots else None
  {
    hide Sync, HeroClass.OfHeroCard;
    SyncedSame(SnapshotStarted(s, id, hero));
  }

  lemma ClosedAs(s: ReducerState)
    ensures var r := Apply(s, ArenaDeckSnapshotCompleted);
      && r.deckCounts == s.deckCounts && r.priorCounts.None? && r.occurrences == map[]
      && r.configuredSlots == s.configuredSlots
      && r.snapshot.run == s.snapshot.run.(deckSnapshotComplete := true)
      && r.snapshot.draft == s.snapshot.draft && r.snapshot.heroClass == s.snapshot.heroClass
      && r.inferredSlots == if s.configuredSlots.None? && s.inferredSlots.None? then Some(SlotCount(s.deckCounts))
                            else s.inferredSlots
  {
    hide Sync, SlotCount;
    SyncedSame(SnapshotCompleted(s));
  }
}
