/** The data of the Arena reducer: events, the public snapshot and the reducer's own tables. */
module ArenaState {
  import opened Prelude
  import opened Ordered
  import opened Text

  type CardId = string

  const SNAPSHOT_SCHEMA_VERSION: nat := 10
  const ARENA_DECK_SLOTS: U16 := 30
  const ARENA_EDITOR_DECK_SLOTS: U16 := 35
  const MAX_SOURCES_PER_CARD: nat := 8

  predicate IsRealCardId(cardId: CardId) {
    var normalized := Upper(Trim(cardId));
    && normalized != ""
    && !("HERO_" <= normalized)
    && normalized != "0" && normalized != "UNKNOWN" && normalized != "INVALID" && normalized != "NONE"
  }

  datatype GameMode = Arena | Unknown | Other {
    static function FromLog(value: string): GameMode {
      var normalized := Upper(Trim(value));
      if Contains(normalized, "ARENA") then GameMode.Arena
      else if normalized == "" || normalized == "UNKNOWN" then GameMode.Unknown
      else GameMode.Other
    }
  }

  datatype HeroClass =
    DeathKnight | DemonHunter | Druid | Hunter | Mage | Paladin | Priest | Rogue | Shaman | Warlock | Warrior
  {
    static function FromLog(value: string): Option<HeroClass> {
      match Without(Upper(Trim(value)), {' ', '-'})
      case "DEATHKNIGHT" => Some(DeathKnight)
      case "DEMONHUNTER" => Some(DemonHunter)
      case "DRUID" => Some(Druid)
      case "HUNTER" => Some(Hunter)
      case "MAGE" => Some(Mage)
      case "PALADIN" => Some(Paladin)
      case "PRIEST" => Some(Priest)
      case "ROGUE" => Some(Rogue)
      case "SHAMAN" => Some(Shaman)
      case "WARLOCK" => Some(Warlock)
      case "WARRIOR" => Some(Warrior)
      case _ => None
    }

    static function FromHeroCardId(value: string): Option<HeroClass> {
      match Upper(Trim(value))
      case "HERO_01" => Some(Warrior)
      case "HERO_02" => Some(Shaman)
      case "HERO_03" => Some(Rogue)
      case "HERO_04" => Some(Paladin)
      case "HERO_05" => Some(Hunter)
      case "HERO_06" => Some(Druid)
      case "HERO_07" => Some(Warlock)
      case "HERO_08" => Some(Mage)
      case "HERO_09" => Some(Priest)
      case "HERO_10" => Some(DemonHunter)
      case "HERO_11" => Some(DeathKnight)
      case _ => None
    }

    /** A hero card id, or failing that a class name. */
    static function OfHeroCard(value: string): Option<HeroClass> {
      var byCard := FromHeroCardId(value);
      if byCard.Some? then byCard else FromLog(value)
    }
  }

  datatype DraftPhase = Unknown | Drafting | Redrafting | ActiveDeck | Rewards | Other {
    static function FromLog(value: string): DraftPhase {
      match Upper(Trim(value))
      case "DRAFTING" => DraftPhase.Drafting
      case "REDRAFTING" => DraftPhase.Redrafting
      case "ACTIVE_DRAFT_DECK" => DraftPhase.ActiveDeck
      case "IN_REWARDS" => DraftPhase.Rewards
      case "" => DraftPhase.Unknown
      case _ => DraftPhase.Other
    }

    predicate AcceptsCardOffers() { Drafting? || Redrafting? }
  }

  datatype DeckCard = DeckCard(cardId: CardId, count: nat)

  datatype PartialDeckReason =
    ExpectedSlotsUnknown | UnobservedSlots | ObservedSlotsExceedExpected | RedraftPendingDeckReview

  datatype DeckCompleteness = Unknown | Complete | Partial(reason: PartialDeckReason)

  datatype DeckState = DeckState(
    expectedSlots: Option<U16>,
    observedSlots: U16,
    unobservedSlots: Option<U16>,
    completeness: DeckCompleteness)

  datatype StateOrigin = Replay | AuthoritativeResync

  datatype RunState = RunState(
    draftDeckId: Option<string>,
    deckSnapshotComplete: bool,
    stateOrigin: StateOrigin,
    draftMode: Option<string>,
    draftPhase: DraftPhase)

  datatype RedraftPolicy = RedraftPolicy(pickRounds: U8, discardCount: U8) {
    predicate Valid() { pickRounds > 0 && discardCount > 0 }
  }

  datatype RedraftStage = Inactive | PickingOffers | AwaitingDiscardReview | ReviewingDiscards | Complete

  datatype RedraftProgress = RedraftProgress(
    stage: RedraftStage,
    pickRoundsRequired: Option<U8>,
    pickProgressKnown: bool,
    pickRoundsCompleted: U8,
    discardCountRequired: Option<U8>,
    discardedCardIds: seq<CardId>)
  {
    predicate AcceptsNormalDraftCapture() {
      && pickProgressKnown
      && stage.PickingOffers?
      && pickRoundsRequired.Some?
      && pickRoundsCompleted < pickRoundsRequired.value
    }
  }

  const NO_REDRAFT := RedraftProgress(Inactive, None, false, 0, None, [])

  datatype HistoryStatus = Unknown | Complete | PartialResync

  datatype OfferKind = Heroes | Cards | RedraftPick | Package | Unknown

  datatype OfferSource = Log | ScreenCapture | Manual | Fixture

  datatype OfferItem =
    | Card(cardId: CardId)
    | Hero(cardId: CardId)
    | HeroPower(cardId: CardId)
    | Package(keyCardId: CardId, contents: seq<CardId>)
    | Unknown(text: Option<string>)
  {
    function ObservedCard(): Option<CardId> {
      match this
      case Card(id) => Some(id)
      case Hero(id) => Some(id)
      case HeroPower(id) => Some(id)
      case Package(key, _) => Some(key)
      case Unknown(_) => None
    }

    predicate Valid() {
      match this
      case Card(id) => Trim(id) != ""
      case Hero(id) => Trim(id) != ""
      case HeroPower(id) => Trim(id) != ""
      case Package(key, contents) => Trim(key) != "" && contents != []
      case Unknown(_) => true
    }
  }

  datatype DraftOffer = DraftOffer(cardId: CardId, confidence: real, source: OfferSource)

  datatype CurrentOffer = CurrentOffer(
    kind: OfferKind, pickNumber: U8, items: seq<OfferItem>, confidence: real, source: OfferSource)

  datatype DraftState = DraftState(
    historyStatus: HistoryStatus,
    exactPhaseProgress: bool,
    pickNumber: U8,
    phasePickCount: U8,
    redraft: RedraftProgress,
    currentOffer: Option<CurrentOffer>,
    offers: seq<DraftOffer>,
    selected: Option<CardId>,
    selections: seq<CardId>)
  {
    /** The number of the next offer, zero when the phase progress is not exact. */
    function NextPickNumber(): U8 {
      if exactPhaseProgress then SaturatingNext(phasePickCount) else 0
    }
  }

  datatype GameResult = Win | Loss | Unknown

  datatype GameState = GameState(
    active: bool, result: Option<GameResult>, remainingDeck: seq<DeckCard>, initialDeckSize: U16)

  datatype Snapshot = Snapshot(
    schemaVersion: nat,
    mode: GameMode,
    heroClass: Option<HeroClass>,
    deck: seq<DeckCard>,
    deckState: DeckState,
    run: RunState,
    draft: DraftState,
    game: GameState)

  const EMPTY_DRAFT := DraftState(HistoryStatus.Unknown, false, 0, 0, NO_REDRAFT, None, [], None, [])

  const EMPTY_RUN := RunState(None, false, Replay, None, DraftPhase.Unknown)

  const EMPTY_SNAPSHOT := Snapshot(
    SNAPSHOT_SCHEMA_VERSION, GameMode.Unknown, None, [],
    DeckState(None, 0, None, DeckCompleteness.Unknown),
    EMPTY_RUN, EMPTY_DRAFT, GameState(false, None, [], 0))

  datatype GameEvent =
    | GameModeSeen(rawMode: string)
    | HeroClassSeen(rawClass: string)
    | HeroCard(cardId: CardId)
    | DeckList(cardIds: seq<CardId>)
    | DeckCardSeen(entity: Option<nat>, cardId: CardId)
    | ArenaRunStarted(draftDeckId: string)
    | ArenaAuthoritativeResync(
        draftDeckId: string, heroCardId: Option<CardId>, cardIds: seq<CardId>, draftMode: Option<string>)
    | ArenaDeckSnapshotStarted(draftDeckId: string, heroCardId: Option<CardId>)
    | ArenaDeckSnapshotCard(cardId: CardId)
    | ArenaDeckSnapshotCompleted
    | ArenaDraftMode(mode: string)
    | CardRevealed(entityId: nat, cardId: CardId, zone: Option<string>)
    | FriendlyCardZoneChanged(entityId: nat, cardId: CardId, from: string, to: string)
    | ArenaOffer(pickNumber: Option<U8>, kind: OfferKind, items: seq<OfferItem>, confidence: real, source: OfferSource)
    | ArenaPick(cardId: CardId)
    | ArenaRedraftDiscardReviewStarted
    | ArenaRedraftDiscardSelected(cardId: CardId)
    | ArenaRedraftDiscardSelectionsReplaced(cardIds: seq<CardId>)
    | ArenaRedraftDiscardReviewCompleted
    | GameStarted
    | GameEnded(result: GameResult)

  /** Where one physical log record lives: the unit of idempotency. */
  datatype EventSource = EventSource(sessionId: string, component: string, byteOffset: nat, lineHash: nat)

  datatype GameDeckEntity = GameDeckEntity(cardId: CardId, inDeck: bool)

  /** The value of one reducer: the fields of `ArenaReducer` apart from the sources it has already consumed. */
  datatype ReducerState = ReducerState(
    snapshot: Snapshot,
    deckCounts: map<CardId, nat>,
    priorCounts: Option<map<CardId, nat>>,
    occurrences: map<CardId, U8>,
    deckEntities: map<nat, CardId>,
    gameCounts: map<CardId, nat>,
    gameEntities: map<nat, GameDeckEntity>,
    observations: map<CardId, seq<EventSource>>,
    configuredSlots: Option<U16>,
    inferredSlots: Option<U16>,
    policy: Option<RedraftPolicy>)

  // Projections of count tables.

  function Count(counts: map<CardId, nat>, cardId: CardId): nat {
    if cardId in counts then counts[cardId] else 0
  }

  /** The table as a list in key order. */
  function DeckCards(counts: map<CardId, nat>): seq<DeckCard> {
    ListCounts(KeyList(counts), counts)
  }

  function KeyList(counts: map<CardId, nat>): (keys: seq<CardId>)
    ensures forall k :: k in keys <==> k in counts
  {
    StringLessIsStrictTotal();
    SortedKeys(counts.Keys, StringLess)
  }

  lemma KeyListIncreasing(counts: map<CardId, nat>)
    ensures Increasing(KeyList(counts), StringLess)
    ensures |KeyList(counts)| == |counts.Keys|
  {
    StringLessIsStrictTotal();
    SortedKeysIncreasing(counts.Keys, StringLess);
  }

  function ListCounts(keys: seq<CardId>, counts: map<CardId, nat>): (r: seq<DeckCard>)
    requires forall k | k in keys :: k in counts
    ensures |r| == |keys|
  {
    if keys == [] then [] else [DeckCard(keys[0], counts[keys[0]])] + ListCounts(keys[1..], counts)
  }

  lemma {:induction false} ListCountsAt(keys: seq<CardId>, counts: map<CardId, nat>, i: nat)
    requires forall k | k in keys :: k in counts
    requires i < |keys|
    ensures ListCounts(keys, counts)[i] == DeckCard(keys[i], counts[keys[i]])
  {
    if i > 0 {
      ListCountsAt(keys[1..], counts, i - 1);
    }
  }

  lemma {:induction false} EveryKeyListed(keys: seq<CardId>, counts: map<CardId, nat>, k: CardId)
    requires forall k | k in keys :: k in counts
    ensures k in keys ==> DeckCard(k, counts[k]) in ListCounts(keys, counts)
  {
    if k in keys {
      var i :| 0 <= i < |keys| && keys[i] == k;
      ListCountsAt(keys, counts, i);
    }
  }

  /** One entry per card, in strictly increasing key order, with the card's own count. */
  lemma DeckCardsFaithful(counts: map<CardId, nat>)
    ensures |DeckCards(counts)| == |counts.Keys|
    ensures forall i, j :: 0 <= i < j < |DeckCards(counts)|
              ==> StringLess(DeckCards(counts)[i].cardId, DeckCards(counts)[j].cardId)
    ensures forall card: DeckCard :: card in DeckCards(counts) <==> card.cardId in counts && card.count == counts[card.cardId]
  {
    KeyListIncreasing(counts);
    var keys := KeyList(counts);
    forall i | 0 <= i < |keys| ensures DeckCards(counts)[i] == DeckCard(keys[i], counts[keys[i]]) {
      ListCountsAt(keys, counts, i);
    }
    forall card: DeckCard | card.cardId in counts && card.count == counts[card.cardId] ensures card in DeckCards(counts) {
      EveryKeyListed(keys, counts, card.cardId);
    }
  }

  /** The list loses nothing: equal lists come from equal tables. */
  lemma DeckCardsExact(a: map<CardId, nat>, b: map<CardId, nat>)
    ensures DeckCards(a) == DeckCards(b) <==> a == b
  {
    if DeckCards(a) == DeckCards(b) {
      SameListSameCounts(a, b);
      SameListSameCounts(b, a);
    }
  }

  lemma SameListSameCounts(a: map<CardId, nat>, b: map<CardId, nat>)
    requires DeckCards(a) == DeckCards(b)
    ensures forall k | k in a :: k in b && a[k] == b[k]
  {
    forall k | k in a ensures k in b && a[k] == b[k] {
      DeckCardsFaithful(a);
      assert DeckCard(k, a[k]) in DeckCards(b);
      DeckCardsFaithful(b);
    }
  }

  function PositiveCounts(counts: map<CardId, nat>): map<CardId, nat> {
    map k | k in counts && counts[k] > 0 :: counts[k]
  }

  ghost function SlotCount(counts: map<CardId, nat>): U16 {
    Cap16(Total(counts))
  }

  function AddCard(counts: map<CardId, nat>, cardId: CardId): map<CardId, nat> {
    if IsRealCardId(cardId) then counts[cardId := Count(counts, cardId) + 1] else counts
  }

  function AddCards(counts: map<CardId, nat>, cardIds: seq<CardId>): map<CardId, nat>
    decreases cardIds
  {
    if cardIds == [] then counts else AddCards(AddCard(counts, cardIds[0]), cardIds[1..])
  }
}
