/** Which records a card's provenance holds: the last eight that mention it since the last run boundary or listing. */
module CardSources {
  import opened Prelude
  import opened Text
  import opened ArenaState
  import opened ReducerSpec
  import opened ReducerFrames
  import WarmRestart

  function Sources(table: Observations, id: CardId): seq<EventSource> {
    if id in table then table[id] else []
  }

  function LastEight(sources: seq<EventSource>): seq<EventSource> {
    if |sources| <= 8 then sources else sources[|sources| - 8..]
  }

  function Times(source: EventSource, n: nat): seq<EventSource> {
    seq(n, _ => source)
  }

  /** An event that names a card: its own, one of a list, or one on offer. */
  predicate Names(event: GameEvent, id: CardId) {
    || event == ArenaPick(id) || event == ArenaDeckSnapshotCard(id) || event == ArenaRedraftDiscardSelected(id)
    || (event.DeckCardSeen? && event.cardId == id) || (event.CardRevealed? && event.cardId == id)
    || (event.FriendlyCardZoneChanged? && event.cardId == id)
    || (event.DeckList? && id in event.cardIds)
    || (event.ArenaOffer? && exists i | 0 <= i < |event.items| :: OnOffer(event.items[i], id))
  }

  predicate OnOffer(item: OfferItem, id: CardId) {
    item == OfferItem.Card(id) || item == OfferItem.Hero(id) || item == OfferItem.HeroPower(id)
    || (item.Package? && item.keyCardId == id)
  }

  lemma {:induction false} ItemsNamed(items: seq<OfferItem>, id: CardId)
    ensures id in ItemCards(items) <==> exists i | 0 <= i < |items| :: OnOffer(items[i], id)
  {
    if items != [] {
      ItemsNamed(items[1..], id);
      assert forall i | 1 <= i < |items| :: items[i] == items[1..][i - 1];
    }
  }

  lemma NamedIff(event: GameEvent, id: CardId)
    ensures id in ObservedCards(event) <==> Names(event, id)
  {
    hide OnOffer, ItemCards;
    if event.ArenaOffer? {
      ItemsNamed(event.items, id);
    }
  }

  // One record.

  function Mentions(events: seq<GameEvent>, id: CardId): nat {
    if events == [] then 0 else multiset(ObservedCards(events[0]))[id] + Mentions(events[1..], id)
  }

  lemma LastEightAgain(a: seq<EventSource>, b: seq<EventSource>)
    ensures LastEight(LastEight(a) + b) == LastEight(a + b)
  {
  }

  lemma TimesAdd(before: seq<EventSource>, source: EventSource, n: nat, m: nat)
    ensures LastEight(LastEight(before + Times(source, n)) + Times(source, m)) == LastEight(before + Times(source, n + m))
  {
    hide LastEight;
    LastEightAgain(before + Times(source, n), Times(source, m));
    assert before + Times(source, n) + Times(source, m) == before + Times(source, n + m);
  }

  lemma FewStay(before: seq<EventSource>, source: EventSource)
    requires |before| <= 8
    ensures LastEight(before + Times(source, 0)) == before && LastEight(before) == before
  {
    assert before + Times(source, 0) == before;
  }

  lemma RecordOne(table: Observations, source: EventSource, card: CardId, id: CardId)
    requires IsRealCardId(id) && |Sources(table, id)| <= 8
    ensures Sources(RecordCard(table, source, card), id)
         == LastEight(Sources(table, id) + Times(source, if card == id then 1 else 0))
  {
    hide IsRealCardId;
    FewStay(Sources(table, id), source);
    assert Times(source, 1) == [source];
  }

  lemma {:induction false} RecordSeveral(table: Observations, source: EventSource, ids: seq<CardId>, id: CardId)
    requires IsRealCardId(id) && |Sources(table, id)| <= 8
    ensures Sources(RecordCards(table, source, ids), id)
         == LastEight(Sources(table, id) + Times(source, multiset(ids)[id]))
    decreases ids
  {
    hide IsRealCardId, RecordCard, LastEight;
    FewStay(Sources(table, id), source);
    if ids != [] {
      var n := multiset(ids[1..])[id];
      assert ids == [ids[0]] + ids[1..];
      RecordOne(table, source, ids[0], id);
      FewLeft(Sources(table, id), source, if ids[0] == id then 1 else 0);
      RecordSeveral(RecordCard(table, source, ids[0]), source, ids[1..], id);
      TimesAdd(Sources(table, id), source, if ids[0] == id then 1 else 0, n);
    }
  }

  lemma FewLeft(before: seq<EventSource>, source: EventSource, n: nat)
    ensures |LastEight(before + Times(source, n))| <= 8
  {
  }

  /** A record is noted under every real card that its events name, once for each time. */
  lemma {:induction false} RecordNoted(table: Observations, source: EventSource, events: seq<GameEvent>, id: CardId)
    requires IsRealCardId(id) && |Sources(table, id)| <= 8
    ensures Sources(RecordEvents(table, source, events), id)
         == LastEight(Sources(table, id) + Times(source, Mentions(events, id)))
    decreases events
  {
    hide IsRealCardId, RecordCards, ObservedCards, LastEight;
    FewStay(Sources(table, id), source);
    if events != [] {
      var n := multiset(ObservedCards(events[0]))[id];
      RecordSeveral(table, source, ObservedCards(events[0]), id);
      FewLeft(Sources(table, id), source, n);
      RecordNoted(RecordCards(table, source, ObservedCards(events[0])), source, events[1..], id);
      TimesAdd(Sources(table, id), source, n, Mentions(events[1..], id));
    }
  }

  // Runs of records.

  /** A run boundary or the start of a listing: what was recorded before it does not count any more. */
  predicate Forgets(event: GameEvent) {
    event.ArenaRunStarted? || event.ArenaAuthoritativeResync? || event.ArenaDeckSnapshotStarted?
  }

  lemma RunRecordSources(s: ReducerState, event: GameEvent)
    requires IsRunRecord(event)
    ensures Mutate(s, event).observations == if Forgets(event) then map[] else s.observations
  {
    hide DraftMode, SnapshotCard, SnapshotCompleted, SnapshotStarted, Resync, BeginRun;
    match event
    case ArenaDraftMode(mode) => ModeSources(s, mode);
    case ArenaDeckSnapshotCard(id) => SnapshotCardTouches(s, id);
    case ArenaDeckSnapshotCompleted => SnapshotCompletedTouches(s);
    case ArenaAuthoritativeResync(id, hero, ids, mode) => WarmRestart.ResyncTables(s, id, hero, ids, mode);
    case ArenaDeckSnapshotStarted(id, hero) => WarmRestart.SnapshotStartedTables(s, id, hero);
    case ArenaRunStarted(id) => RunStartSources(s, id);
  }

  lemma RunStartSources(s: ReducerState, id: string)
    ensures BeginRun(s, id).observations == map[]
  {
  }

  lemma ModeSources(s: ReducerState, mode: string)
    ensures DraftMode(s, mode).observations == s.observations
  {
    hide DraftMode;
    WarmRestart.DraftModeTables(s, mode);
  }

  lemma EventSources(s: ReducerState, event: GameEvent)
    ensures Apply(s, event).observations == if Forgets(event) then map[] else s.observations
  {
    hide Mutate, DeckCards, PositiveCounts, DeckStateOf;
    if IsRunRecord(event) {
      RunRecordSources(s, event);
    } else if IsReviewRecord(event) {
      ReviewTouchesDraft(s, event);
    } else if IsDeckRecord(event) {
      DeckRecordTouchesDeck(s, event);
    } else {
      OtherSources(s, event);
    }
  }

  lemma OtherSources(s: ReducerState, event: GameEvent)
    requires !IsRunRecord(event) && !IsReviewRecord(event) && !IsDeckRecord(event)
    ensures Mutate(s, event).observations == s.observations
  {
    hide HeroClass.OfHeroCard, HeroClass.FromLog, GameMode.FromLog, AddCard, ValidItems, CardOffers, CountPick, SlotCount,
      RemoveOne, IsDeckExit, IsDeckEntry;
  }

  predicate KeepsSources(events: seq<GameEvent>) {
    forall i | 0 <= i < |events| :: !Forgets(events[i])
  }

  lemma {:induction false} EventsSources(s: ReducerState, events: seq<GameEvent>)
    requires KeepsSources(events)
    ensures ApplyAll(s, events).observations == s.observations
    decreases events
  {
    hide ReducerSpec.Apply, Forgets;
    if events != [] {
      EventSources(s, events[0]);
      EventsSources(Apply(s, events[0]), events[1..]);
    }
  }

  datatype Noted = Noted(source: EventSource, events: seq<GameEvent>)

  ghost function ApplyRecords(t: Tracked, records: seq<Noted>): Tracked
    decreases records
  {
    if records == [] then t else ApplyRecords(ApplySourcedLine(t, records[0].source, records[0].events), records[1..])
  }

  /** The sources of the records that name the card, in order, one for each time. */
  function Naming(records: seq<Noted>, id: CardId): seq<EventSource> {
    if records == [] then []
    else Times(records[0].source, Mentions(records[0].events, id)) + Naming(records[1..], id)
  }

  predicate NewSources(records: seq<Noted>, seen: set<EventSource>) {
    && (forall i | 0 <= i < |records| :: records[i].source !in seen)
    && forall i, j | 0 <= i < j < |records| :: records[i].source != records[j].source
  }

  /** After any run of new records with no boundary and no listing among them, a real card's provenance is the last eight
      mentions of it, in the order of the records, those from before included. */
  lemma {:induction false} ProvenanceIsLastMentions(t: Tracked, records: seq<Noted>, id: CardId)
    requires IsRealCardId(id) && |Sources(t.state.observations, id)| <= 8 && NewSources(records, t.seen)
    requires forall i | 0 <= i < |records| :: KeepsSources(records[i].events)
    ensures Sources(ApplyRecords(t, records).state.observations, id)
         == LastEight(Sources(t.state.observations, id) + Naming(records, id))
    decreases records
  {
    hide IsRealCardId, ApplySourcedLine, KeepsSources, Mentions, LastEight, Sources;
    var before := Sources(t.state.observations, id);
    if records == [] {
      StayFew(before);
    } else {
      var first, rest := records[0], records[1..];
      var times := Times(first.source, Mentions(first.events, id));
      OneRecord(t, first, id);
      FewLeft(before, first.source, Mentions(first.events, id));
      ProvenanceIsLastMentions(ApplySourcedLine(t, first.source, first.events), rest, id);
      LastEightAgain(before + times, Naming(rest, id));
      assert before + times + Naming(rest, id) == before + Naming(records, id);
    }
  }

  lemma StayFew(before: seq<EventSource>)
    requires |before| <= 8
    ensures LastEight(before + []) == before
  {
    assert before + [] == before;
  }

  lemma OneRecord(t: Tracked, record: Noted, id: CardId)
    requires IsRealCardId(id) && |Sources(t.state.observations, id)| <= 8
    requires record.source !in t.seen && KeepsSources(record.events)
    ensures var after := ApplySourcedLine(t, record.source, record.events);
      && Sources(after.state.observations, id)
           == LastEight(Sources(t.state.observations, id) + Times(record.source, Mentions(record.events, id)))
      && after.seen <= t.seen + {record.source}
  {
    hide IsRealCardId, RecordEvents, ApplyAll, KeepsSources, LastEight, Sources;
    var noted := RecordEvents(t.state.observations, record.source, record.events);
    RecordNoted(t.state.observations, record.source, record.events, id);
    EventsSources(t.state.(observations := noted), record.events);
    if record.events == [] {
      FewStay(Sources(t.state.observations, id), record.source);
    }
  }
}
