/** What the public snapshot shows of the reducer's tables, and which checkpoints are therefore accepted. */
module AcceptedCheckpoints {
  import opened Prelude
  import opened Ordered
  import opened Text
  import opened ArenaState
  import opened ReducerSpec
  import opened ReducerCheckpoint
  import WarmRestart

  // What is shown.

  /** The cards of a table with their counts, in the order of their ids, each once. */
  ghost predicate Lists(deck: seq<DeckCard>, counts: map<CardId, nat>) {
    && (forall i, j :: 0 <= i < j < |deck| ==> StringLess(deck[i].cardId, deck[j].cardId))
    && forall card: DeckCard :: card in deck <==> card.cardId in counts && card.count == counts[card.cardId]
  }

  lemma ListsIff(deck: seq<DeckCard>, counts: map<CardId, nat>)
    ensures Lists(deck, counts) <==> deck == DeckCards(counts)
  {
    hide DeckCards, StringLess;
    DeckCardsFaithful(counts);
    if Lists(deck, counts) {
      StringLessIsStrictTotal();
      var ids, expected := Ids(deck), Ids(DeckCards(counts));
      forall id ensures id in ids <==> id in expected {
        IdsAre(deck, counts, id);
        IdsAre(DeckCards(counts), counts, id);
      }
      SortedUnique(ids, expected, StringLess);
      SameIds(deck, DeckCards(counts), counts);
    }
  }

  function Ids(deck: seq<DeckCard>): seq<CardId> {
    seq(|deck|, i requires 0 <= i < |deck| => deck[i].cardId)
  }

  lemma IdsAre(deck: seq<DeckCard>, counts: map<CardId, nat>, id: CardId)
    requires Lists(deck, counts)
    ensures id in Ids(deck) <==> id in counts
  {
    hide StringLess;
    if id in counts {
      var i :| 0 <= i < |deck| && deck[i] == DeckCard(id, counts[id]);
      assert Ids(deck)[i] == id;
    }
  }

  lemma SameIds(a: seq<DeckCard>, b: seq<DeckCard>, counts: map<CardId, nat>)
    requires Lists(a, counts) && Lists(b, counts) && Ids(a) == Ids(b)
    ensures a == b
  {
    hide StringLess;
    assert |a| == |Ids(a)| == |Ids(b)| == |b|;
    forall i | 0 <= i < |a| ensures a[i] == b[i] {
      assert a[i] in a && b[i] in b && Ids(a)[i] == Ids(b)[i];
    }
  }

  /** How far the deck is known: compared with the expected size, unless a Redraft review is outstanding. */
  ghost predicate Describes(d: DeckState, s: ReducerState) {
    var expected := if s.configuredSlots.Some? then s.configuredSlots else s.inferredSlots;
    var held := if Total(s.deckCounts) <= 65535 then Total(s.deckCounts) else 65535;
    var reviewed := s.snapshot.draft.redraft.stage.Inactive? || s.snapshot.run.deckSnapshotComplete;
    && d.expectedSlots == expected && d.observedSlots == held
    && d.unobservedSlots == (if expected.None? then None else Some(if held <= expected.value then expected.value - held else 0))
    && (d.completeness.Complete? <==> reviewed && expected == Some(held))
    && (d.completeness == DeckCompleteness.Partial(RedraftPendingDeckReview) <==> !reviewed)
    && (d.completeness.Unknown? <==> reviewed && expected.None? && held == 0)
    && (d.completeness == DeckCompleteness.Partial(ExpectedSlotsUnknown) <==> reviewed && expected.None? && held > 0)
    && (d.completeness == DeckCompleteness.Partial(UnobservedSlots) <==> reviewed && expected.Some? && held < expected.value)
    && (d.completeness == DeckCompleteness.Partial(ObservedSlotsExceedExpected) <==>
          reviewed && expected.Some? && expected.value < held)
  }

  lemma DescribesIff(d: DeckState, s: ReducerState)
    ensures Describes(d, s) <==> d == DeckStateOf(s)
  {
  }

  /** The snapshot shows the tables: the deck, how far it is known, and the cards left in the current game. */
  ghost predicate Shows(s: ReducerState) {
    && Lists(s.snapshot.deck, s.deckCounts)
    && Describes(s.snapshot.deckState, s)
    && Lists(s.snapshot.game.remainingDeck, map id | id in s.gameCounts && s.gameCounts[id] > 0 :: s.gameCounts[id])
  }

  lemma ShowsIff(s: ReducerState)
    ensures Shows(s) <==> Sync(s) == s
  {
    hide DeckCards, DeckStateOf, Lists, Describes;
    ListsIff(s.snapshot.deck, s.deckCounts);
    ListsIff(s.snapshot.game.remainingDeck, PositiveCounts(s.gameCounts));
    DescribesIff(s.snapshot.deckState, s);
  }

  /** After any run of events, sourced lines, settings and manual actions the snapshot shows the tables. */
  lemma RunsShowTheirTables(slots: Option<U16>, ops: seq<Operation>)
    ensures Shows(RunFresh(slots, ops).state)
  {
    hide Shows, Sync, RunFresh;
    WarmRestart.ReachableWellFormed(slots, ops);
    ShowsIff(RunFresh(slots, ops).state);
  }

  // What is accepted.

  predicate PlainCounts(counts: map<CardId, nat>) {
    forall id | id in counts :: IsRealCardId(id) && counts[id] != 0
  }

  predicate PlainEntities(entities: map<nat, CardId>) {
    forall entity | entity in entities :: IsRealCardId(entities[entity])
  }

  predicate Attributed(table: map<CardId, seq<EventSource>>) {
    forall id | id in table ::
      && IsRealCardId(id) && |table[id]| <= 8
      && forall source | source in table[id] :: Trim(source.sessionId) != [] && Trim(source.component) != []
  }

  predicate Playable(policy: Option<RedraftPolicy>) {
    policy.None? || (policy.value.pickRounds != 0 && policy.value.discardCount != 0)
  }

  /** A checkpoint is accepted if and only if it is of this schema, its tables hold only real cards, present counts, at most
      eight named sources a card and a usable policy, and its snapshot shows them. Nothing in it is lost: the restored
      reducer would be checkpointed the same. A refusal names the first of these that fails. */
  lemma AcceptedIff(c: Checkpoint)
    ensures Restore(c).Ok? <==>
      && c.snapshot.schemaVersion == 10
      && PlainCounts(c.deckCounts) && PlainEntities(c.deckEntities) && Attributed(c.observations) && Playable(c.policy)
      && Shows(Rebuilt(c))
    ensures Restore(c).Ok? ==> CheckpointOf(Restore(c).value) == c
    ensures Restore(c).Err? ==>
      match Restore(c).error
      case UnsupportedSchema => c.snapshot.schemaVersion != 10
      case InvalidDeckCount => c.snapshot.schemaVersion == 10 && !PlainCounts(c.deckCounts)
      case InvalidDeckEntity =>
        c.snapshot.schemaVersion == 10 && PlainCounts(c.deckCounts) && !PlainEntities(c.deckEntities)
      case InvalidProvenance =>
        && c.snapshot.schemaVersion == 10 && PlainCounts(c.deckCounts) && PlainEntities(c.deckEntities)
        && !Attributed(c.observations)
      case InvalidPolicy =>
        && c.snapshot.schemaVersion == 10 && PlainCounts(c.deckCounts) && PlainEntities(c.deckEntities)
        && Attributed(c.observations) && !Playable(c.policy)
      case SnapshotMismatch =>
        && c.snapshot.schemaVersion == 10 && PlainCounts(c.deckCounts) && PlainEntities(c.deckEntities)
        && Attributed(c.observations) && Playable(c.policy) && !Shows(Rebuilt(c))
  {
    hide IsRealCardId, DeckCards, DeckStateOf, PositiveCounts, Shows, Trim;
    ShowsIff(Rebuilt(c));
    SyncKeepsTables(Rebuilt(c));
  }

  lemma SyncKeepsTables(s: ReducerState)
    ensures Sync(s) == s.(snapshot := Sync(s).snapshot)
  {
    hide DeckCards, DeckStateOf, PositiveCounts;
  }
}
