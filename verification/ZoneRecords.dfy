/** From the text of a zone record to the cards left in the deck. */
module ZoneRecords {
  import opened Prelude
  import opened ArenaState
  import opened ReducerSpec
  import opened LineGrammar
  import opened LogParser
  import opened LineTexts

  /** The count of one card moves by one, and no other. */
  ghost predicate Moved(before: map<CardId, nat>, after: map<CardId, nat>, card: CardId, now: nat) {
    Count(after, card) == now && forall id | id != card :: Count(after, id) == Count(before, id)
  }

  lemma RemovedOne(counts: map<CardId, nat>, card: CardId)
    ensures Moved(counts, RemoveOne(counts, card), card, if Count(counts, card) > 0 then Count(counts, card) - 1 else 0)
  {
  }

  lemma AddedOne(counts: map<CardId, nat>, card: CardId)
    ensures Moved(counts, counts[card := Count(counts, card) + 1], card, Count(counts, card) + 1)
  {
  }

  lemma ZoneApplied(s: ReducerState, source: EventSource, entity: nat, card: CardId, from: string, to: string)
    ensures var r := ConsumeLine(s, source, [FriendlyCardZoneChanged(entity, card, from, to)]);
      var z := ZoneChanged(s, entity, card, from, to);
      && r.gameCounts == z.gameCounts && r.gameEntities == z.gameEntities && r.deckCounts == s.deckCounts
      && r.snapshot.game.remainingDeck == DeckCards(PositiveCounts(r.gameCounts))
  {
    hide Sync, ZoneChanged;
    var event := FriendlyCardZoneChanged(entity, card, from, to);
    var noted := s.(observations := RecordEvents(s.observations, source, [event]));
    assert ApplyAll(noted, [event]) == ApplyAll(Apply(noted, event), []);
    ZoneIgnoresNotes(s, noted.observations, entity, card, from, to);
    SyncedGame(ZoneChanged(noted, entity, card, from, to));
  }

  lemma ZoneIgnoresNotes(s: ReducerState, notes: Observations, entity: nat, card: CardId, from: string, to: string)
    ensures ZoneChanged(s.(observations := notes), entity, card, from, to)
         == ZoneChanged(s, entity, card, from, to).(observations := notes)
    ensures ZoneChanged(s, entity, card, from, to).deckCounts == s.deckCounts
  {
    hide IsRealCardId, IsDeckZone, RemoveOne;
  }

  lemma SyncedGame(s: ReducerState)
    ensures var r := Sync(s);
      && r.gameCounts == s.gameCounts && r.gameEntities == s.gameEntities && r.deckCounts == s.deckCounts
      && r.snapshot.game.remainingDeck == DeckCards(PositiveCounts(s.gameCounts))
  {
    hide DeckCards, DeckStateOf, PositiveCounts;
  }

  lemma DeckZones(zone: string)
    requires IsZone(zone)
    ensures IsDeckZone(zone) <==> zone == "DECK"
  {
    UpperDeck(zone);
  }

  /** A record by which a card that has not moved before leaves the deck takes exactly one copy of it from the deck
      shown during the game, and one by which it comes into the deck adds exactly one. */
  lemma ZoneRecordMovesOne(
    p: ParserState, t: Tracked, source: EventSource, line: RawLogLine, before: string, name: string, entity: string,
    zone: string, position: string, card: string, player: string, from: string, to: string)
    requires '[' !in before && IsName(name) && ZoneFields(entity, zone, position, card, player, from, to)
    requires line.component.Zone? && line.message == ZoneText(before, name, entity, zone, position, card, player, from, to)
    requires Number(entity) < 0x1_0000_0000 && from != to && (from == "DECK" || to == "DECK")
    requires t.state.snapshot.game.active && IsRealCardId(card)
    requires source !in t.seen && Number(entity) !in t.state.gameEntities
    ensures var after := ApplySourcedLine(t, source, Parse(p, line).1).state;
      var count := Count(t.state.gameCounts, card);
      && Moved(t.state.gameCounts, after.gameCounts, card,
               if to == "DECK" then count + 1 else if count > 0 then count - 1 else 0)
      && Number(entity) in after.gameEntities
      && after.gameEntities[Number(entity)] == GameDeckEntity(card, to == "DECK")
      && after.deckCounts == t.state.deckCounts
      && after.snapshot.game.remainingDeck == DeckCards(PositiveCounts(after.gameCounts))
  {
    hide Parse, ZoneText, IsRealCardId, IsDeckZone, RemoveOne, DeckCards, PositiveCounts, ConsumeLine;
    ZoneTextParses(p, line, before, name, entity, zone, position, card, player, from, to);
    ZoneApplied(t.state, source, Number(entity), card, from, to);
    DeckZones(from);
    DeckZones(to);
    RemovedOne(t.state.gameCounts, card);
    AddedOne(t.state.gameCounts, card);
  }
}
