/** Deck lists, sightings of cards in the deck, games and offers: what one record of each leaves, and what runs of
    sightings add up to. */
module DeckRecords {
  import opened Prelude
  import opened Ordered
  import opened Text
  import opened ArenaState
  import opened ReducerSpec
  import opened ReducerFrames
  import PickDecks
  import LogNames

  // Deck lists and sightings.

  /** A deck list replaces the deck: every real card as often as it is listed, and no entity is known. */
  lemma DeckListHolds(s: ReducerState, ids: seq<CardId>)
    ensures var r := Apply(s, DeckList(ids));
      && (forall c :: Count(r.deckCounts, c) == if IsRealCardId(c) then multiset(ids)[c] else 0)
      && r.deckEntities == map[] && r.snapshot.deck == DeckCards(r.deckCounts)
      && r.snapshot.run == s.snapshot.run && r.snapshot.draft == s.snapshot.draft && r.gameCounts == s.gameCounts
  {
    hide DeckCards, DeckStateOf, PositiveCounts, AddCards, IsRealCardId;
    PickDecks.AddCardsCounts(map[], ids);
  }

  /** A record that shows an entity of the player's deck. */
  predicate IsSighting(event: GameEvent) {
    (event.DeckCardSeen? && event.entity.Some?) || event.CardRevealed?
  }

  function EntityOf(event: GameEvent): nat
    requires IsSighting(event)
  {
    if event.CardRevealed? then event.entityId else event.entity.value
  }

  /** Shown in the deck: by the kind of record, or by its zone in any case. */
  predicate InDeck(event: GameEvent)
    requires IsSighting(event)
  {
    event.CardRevealed? ==> event.zone.Some? && SameIgnoringCase(event.zone.value, "deck")
  }

  /** The first sighting of an entity in the deck adds one copy of its card; a later one changes nothing, whatever card it
      shows. */
  lemma SightingCounts(s: ReducerState, event: GameEvent)
    requires IsSighting(event)
    ensures var r, entity, id := Apply(s, event), EntityOf(event), event.cardId;
      if InDeck(event) && IsRealCardId(id) && entity !in s.deckEntities then
        && r.deckEntities == s.deckEntities[entity := id]
        && (forall c :: Count(r.deckCounts, c) == Count(s.deckCounts, c) + (if c == id then 1 else 0))
      else r.deckEntities == s.deckEntities && r.deckCounts == s.deckCounts
  {
    hide IsRealCardId, Sync, AddCard;
    PickDecks.SyncedDraft(Mutate(s, event));
    PickDecks.AddCardCounts(s.deckCounts, event.cardId);
    assert Lower("deck") == Lower("DECK");
  }

  /** The entities known to be copies of a card. */
  function Copies(s: ReducerState, id: CardId): set<nat> {
    set entity | entity in s.deckEntities && s.deckEntities[entity] == id
  }

  lemma CopySeen(s: ReducerState, r: ReducerState, entity: nat, id: CardId, c: CardId)
    requires entity !in s.deckEntities && r.deckEntities == s.deckEntities[entity := id]
    ensures Copies(r, c) == Copies(s, c) + (if c == id then {entity} else {}) && entity !in Copies(s, c)
  {
  }

  /** Over any run of sightings the deck gains, of every card, exactly the entities that were found to be copies of it, and
      no entity ever becomes a copy of another card. */
  lemma {:induction false} SightingsCountEntities(s: ReducerState, events: seq<GameEvent>, c: CardId)
    requires forall i | 0 <= i < |events| :: IsSighting(events[i])
    ensures var r := ApplyAll(s, events);
      && Copies(s, c) <= Copies(r, c)
      && Count(r.deckCounts, c) - Count(s.deckCounts, c) == |Copies(r, c)| - |Copies(s, c)|
      && forall entity | entity in s.deckEntities :: entity in r.deckEntities && r.deckEntities[entity] == s.deckEntities[entity]
    decreases events
  {
    hide IsRealCardId, ReducerSpec.Apply, InDeck;
    if events != [] {
      var event := events[0];
      var next := Apply(s, event);
      SightingCounts(s, event);
      if next.deckEntities != s.deckEntities {
        CopySeen(s, next, EntityOf(event), event.cardId, c);
      }
      SightingsCountEntities(next, events[1..], c);
    }
  }

  // Names.

  /** A record of a hero card or of a class sets the class it names, and leaves run, draft, deck and game alone; the mode
      record of the Arena sets the mode. */
  lemma NamesNoted(s: ReducerState, class_: HeroClass, card: string, name: string)
    requires LogNames.Written(card, LogNames.HeroCardOf(class_)) && LogNames.Letters(name) == LogNames.NameOf(class_)
    ensures Apply(s, HeroCard(card)).snapshot.heroClass == Some(class_) && OnlyNames(s, Apply(s, HeroCard(card)))
    ensures Apply(s, HeroClassSeen(name)).snapshot.heroClass == Some(class_) && OnlyNames(s, Apply(s, HeroClassSeen(name)))
    ensures Apply(s, GameModeSeen("ARENA")).snapshot.mode.Arena? && OnlyNames(s, Apply(s, GameModeSeen("ARENA")))
  {
    hide HeroClass.FromLog, HeroClass.OfHeroCard, GameMode.FromLog, DeckCards, DeckStateOf, PositiveCounts;
    LogNames.HeroRead(class_, card);
    LogNames.ClassNameIff(name, class_);
    ArenaMode();
  }

  predicate OnlyNames(s: ReducerState, r: ReducerState) {
    && r == s.(snapshot := r.snapshot) && r.snapshot.run == s.snapshot.run && r.snapshot.draft == s.snapshot.draft
    && r.snapshot.game == s.snapshot.game.(remainingDeck := r.snapshot.game.remainingDeck)
  }

  lemma ArenaMode()
    ensures GameMode.FromLog("ARENA").Arena?
  {
    assert Trim("ARENA") == "ARENA" && Upper("ARENA") == "ARENA";
    assert StartsAt("ARENA", "ARENA", 0);
  }

  // Games.

  /** A game starts with the deck as it is; a start during a game changes nothing of it. */
  lemma GameOpens(s: ReducerState)
    ensures var r := Apply(s, GameStarted);
      && r.snapshot.game.active && r.deckCounts == s.deckCounts && r.snapshot.run == s.snapshot.run
      && r.snapshot.draft == s.snapshot.draft
      && (!s.snapshot.game.active ==>
            && r.gameCounts == s.deckCounts && r.gameEntities == map[] && r.snapshot.game.result.None?
            && r.snapshot.game.initialDeckSize == (if Total(s.deckCounts) <= 65535 then Total(s.deckCounts) else 65535)
            && r.snapshot.game.remainingDeck == DeckCards(PositiveCounts(s.deckCounts)))
      && (s.snapshot.game.active ==>
            && r.gameCounts == s.gameCounts && r.gameEntities == s.gameEntities
            && r.snapshot.game.result == s.snapshot.game.result
            && r.snapshot.game.initialDeckSize == s.snapshot.game.initialDeckSize)
  {
    hide DeckCards, DeckStateOf, PositiveCounts;
  }

  /** A game that ends keeps the cards that were left, and its result. */
  lemma GameCloses(s: ReducerState, result: GameResult)
    ensures var r := Apply(s, GameEnded(result));
      && !r.snapshot.game.active && r.snapshot.game.result == Some(result)
      && r.gameCounts == s.gameCounts && r.gameEntities == s.gameEntities && r.deckCounts == s.deckCounts
      && r.snapshot.game.initialDeckSize == s.snapshot.game.initialDeckSize
      && r.snapshot.run == s.snapshot.run && r.snapshot.draft == s.snapshot.draft
  {
    hide DeckCards, DeckStateOf, PositiveCounts;
  }

  // Offers.

  predicate Named(item: OfferItem) {
    match item
    case Card(id) => Trim(id) != []
    case Hero(id) => Trim(id) != []
    case HeroPower(id) => Trim(id) != []
    case Package(key, contents) => Trim(key) != [] && |contents| > 0
    case Unknown(_) => true
  }

  lemma NamedIff(item: OfferItem)
    ensures item.Valid() <==> Named(item)
  {
    hide Trim;
  }

  /** The named items of an offer, in order: what is left when the others are dropped. */
  predicate NamedPart(part: seq<OfferItem>, items: seq<OfferItem>)
    decreases items
  {
    if items == [] then part == []
    else if Named(items[0]) then part != [] && part[0] == items[0] && NamedPart(part[1..], items[1..])
    else NamedPart(part, items[1..])
  }

  lemma {:induction false} ValidIsNamed(items: seq<OfferItem>)
    ensures NamedPart(ValidItems(items), items)
  {
    hide Named, OfferItem.Valid;
    if items != [] {
      NamedIff(items[0]);
      ValidIsNamed(items[1..]);
      assert ([items[0]] + ValidItems(items[1..]))[1..] == ValidItems(items[1..]);
      assert [] + ValidItems(items[1..]) == ValidItems(items[1..]);
    }
  }

  lemma {:induction false} CardsOffered(items: seq<OfferItem>, confidence: real, source: OfferSource, id: CardId)
    ensures multiset(CardOffers(items, confidence, source))[DraftOffer(id, confidence, source)]
         == multiset(items)[OfferItem.Card(id)]
    ensures forall offer | offer in CardOffers(items, confidence, source) ::
      offer.confidence == confidence && offer.source == source
  {
    if items != [] {
      assert items == [items[0]] + items[1..];
      CardsOffered(items[1..], confidence, source, id);
    }
  }

  /** Its named items in order are on offer, under the given number or the next of the phase; every plain card of it as
      often as it occurs, and nothing is selected any more. */
  predicate OnShow(
    before: DraftState, after: DraftState, number: Option<U8>, kind: OfferKind, items: seq<OfferItem>, confidence: real,
    source: OfferSource, id: CardId)
  {
    && after.currentOffer.Some? && after.selected.None?
    && var offer := after.currentOffer.value;
    && NamedPart(offer.items, items) && offer.kind == kind && offer.confidence == confidence && offer.source == source
    && offer.pickNumber == after.pickNumber == (
         if number.Some? then number.value
         else if !before.exactPhaseProgress then 0
         else Min(255, before.phasePickCount + 1))
    && multiset(after.offers)[DraftOffer(id, confidence, source)] == multiset(offer.items)[OfferItem.Card(id)]
    && after.selections == before.selections && after.redraft == before.redraft
    && after.phasePickCount == before.phasePickCount
  }

  lemma OfferTaken(
    s: ReducerState, number: Option<U8>, kind: OfferKind, items: seq<OfferItem>, confidence: real, source: OfferSource,
    id: CardId)
    ensures var r := Offer(s, number, kind, items, confidence, source);
      && r == WithDraft(s, r.snapshot.draft)
      && if forall i | 0 <= i < |items| :: !Named(items[i]) then r.snapshot.draft == s.snapshot.draft
         else OnShow(s.snapshot.draft, r.snapshot.draft, number, kind, items, confidence, source, id)
  {
    hide ValidItems, CardOffers, NamedPart, Named;
    ValidIsNamed(items);
    NothingNamed(ValidItems(items), items);
    CardsOffered(ValidItems(items), confidence, source, id);
  }

  /** An offer with a named item is shown; any other changes nothing. The deck and the run stay either way. */
  lemma OfferShown(
    s: ReducerState, number: Option<U8>, kind: OfferKind, items: seq<OfferItem>, confidence: real, source: OfferSource,
    id: CardId)
    ensures var r := Apply(s, ArenaOffer(number, kind, items, confidence, source));
      && r.deckCounts == s.deckCounts && r.snapshot.run == s.snapshot.run
      && if forall i | 0 <= i < |items| :: !Named(items[i]) then r.snapshot.draft == s.snapshot.draft
         else OnShow(s.snapshot.draft, r.snapshot.draft, number, kind, items, confidence, source, id)
  {
    hide Sync, Offer, OnShow, Named;
    OfferTaken(s, number, kind, items, confidence, source, id);
    PickDecks.SyncedDraft(Offer(s, number, kind, items, confidence, source));
  }

  lemma {:induction false} NothingNamed(part: seq<OfferItem>, items: seq<OfferItem>)
    requires NamedPart(part, items)
    ensures part == [] <==> forall i | 0 <= i < |items| :: !Named(items[i])
    decreases items
  {
    hide Named;
    if items != [] && !Named(items[0]) {
      NothingNamed(part, items[1..]);
      assert forall i | 1 <= i < |items| :: items[i] == items[1..][i - 1];
      assert forall i | 0 <= i < |items[1..]| :: items[1..][i] == items[i + 1];
    }
  }
}
