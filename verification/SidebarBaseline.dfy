/** What the observer accepts from a sidebar read: a capacity, or a complete deck that replaces the known one. */
module SidebarBaseline {
  import opened Prelude
  import opened Ordered
  import opened ArenaState
  import opened ReducerSpec
  import opened Observer
  import Sidebar

  datatype BaselineError =
    | NoRun
    | PartialRead(visible: nat, observed: U16)
    | InvalidCapacity(observed: U16, expected: U16)
    | CapacityOutsideEditor(expected: U16)
    | NotCards

  /** The deck editor may briefly hold more than a finished deck. */
  predicate EditorOverflow(s: ReducerState, observed: U16, expected: U16) {
    s.snapshot.run.draftPhase.ActiveDeck? && expected == ARENA_EDITOR_DECK_SLOTS && observed <= expected
  }

  function CapacityError(s: ReducerState, observed: U16, expected: U16): Option<BaselineError> {
    if expected == 0 || observed > expected then Some(InvalidCapacity(observed, expected))
    else if expected > ARENA_DECK_SLOTS && !EditorOverflow(s, observed, expected) then Some(CapacityOutsideEditor(expected))
    else None
  }

  function BaselineErrorOf(s: ReducerState, cardIds: seq<CardId>, observed: U16, expected: U16): Option<BaselineError> {
    if s.snapshot.run.draftDeckId.None? then Some(NoRun)
    else if |cardIds| != observed then Some(PartialRead(|cardIds|, observed))
    else if CapacityError(s, observed, expected).Some? then CapacityError(s, observed, expected)
    else if cardIds == [] || exists i | 0 <= i < |cardIds| :: !IsRealCardId(cardIds[i]) then Some(NotCards)
    else None
  }

  /** Records only a proven deck capacity. */
  method ApplySidebarCapacity(observer: SessionObserver, observed: U16, expected: U16)
    returns (r: Result<bool, BaselineError>)
    modifies observer.reducer
    ensures var s := old(observer.reducer.Model());
      var error := if s.snapshot.run.draftDeckId.None? then Some(NoRun) else CapacityError(s, observed, expected);
      if error.Some? then r == Err(error.value) && observer.reducer.State() == old(observer.reducer.State())
      else
        && r == Ok(s.snapshot.deckState.expectedSlots != Some(expected))
        && observer.reducer.State() == old(observer.reducer.State()).(state := SetExpectedSlots(s, Some(expected)))
        && observer.reducer.deckCounts == old(observer.reducer.deckCounts)
  {
    var snapshot := observer.reducer.snapshot;
    if snapshot.run.draftDeckId.None? {
      return Err(NoRun);
    }
    var editorOverflow :=
      snapshot.run.draftPhase.ActiveDeck? && expected == ARENA_EDITOR_DECK_SLOTS && observed <= expected;
    if expected == 0 || observed > expected {
      return Err(InvalidCapacity(observed, expected));
    }
    if expected > ARENA_DECK_SLOTS && !editorOverflow {
      return Err(CapacityOutsideEditor(expected));
    }
    observer.reducer.SetExpectedDeckSlots(Some(expected));
    return Ok(snapshot.deckState.expectedSlots != Some(expected));
  }

  /** The state after a complete baseline. */
  ghost function Rebased(s: ReducerState, cardIds: seq<CardId>, expected: U16): ReducerState {
    ReducerSpec.Apply(SetExpectedSlots(s, Some(expected)), DeckList(cardIds))
  }

  /** Replaces the deck by a complete sidebar reading and lets later picks through. */
  method ApplyCompleteSidebar(observer: SessionObserver, cardIds: seq<CardId>, observed: U16, expected: U16)
    returns (r: Result<bool, BaselineError>)
    modifies observer.reducer, observer.parser
    ensures var s := old(observer.reducer.Model());
      var error := BaselineErrorOf(s, cardIds, observed, expected);
      if error.Some? then
        && r == Err(error.value)
        && observer.reducer.State() == old(observer.reducer.State()) && observer.parser.Flags() == old(observer.parser.Flags())
      else
        && observer.reducer.State() == old(observer.reducer.State()).(state := Rebased(s, cardIds, expected))
        && observer.parser.Flags() == old(observer.parser.Flags()).(picksEnabled := true)
        && r == Ok(s.snapshot.deck != Rebased(s, cardIds, expected).snapshot.deck || !old(observer.parser.picksEnabled))
  {
    hide SetExpectedSlots, ReducerSpec.Apply;
    var snapshot := observer.reducer.snapshot;
    if snapshot.run.draftDeckId.None? {
      return Err(NoRun);
    }
    if |cardIds| != observed {
      return Err(PartialRead(|cardIds|, observed));
    }
    var editorOverflow :=
      snapshot.run.draftPhase.ActiveDeck? && expected == ARENA_EDITOR_DECK_SLOTS && observed <= expected;
    if expected == 0 || observed > expected {
      return Err(InvalidCapacity(observed, expected));
    }
    if expected > ARENA_DECK_SLOTS && !editorOverflow {
      return Err(CapacityOutsideEditor(expected));
    }
    if cardIds == [] || exists i | 0 <= i < |cardIds| :: !IsRealCardId(cardIds[i]) {
      return Err(NotCards);
    }
    var enabled := observer.parser.picksEnabled;
    observer.reducer.SetExpectedDeckSlots(Some(expected));
    observer.reducer.Apply(DeckList(cardIds));
    observer.parser.EnablePicks();
    return Ok(snapshot.deck != observer.reducer.snapshot.deck || !enabled);
  }

  /** A baseline replaces the deck alone: run, hero, draft history and the current game stay. */
  lemma RebaseKeepsTheRest(s: ReducerState, cardIds: seq<CardId>, expected: U16)
    ensures var r := Rebased(s, cardIds, expected);
      && r.deckCounts == AddCards(map[], cardIds) && r.configuredSlots == Some(expected) && r.deckEntities == map[]
      && r.snapshot.deck == DeckCards(r.deckCounts)
      && r.snapshot.run == s.snapshot.run && r.snapshot.heroClass == s.snapshot.heroClass
      && r.snapshot.draft == s.snapshot.draft && r.gameCounts == s.gameCounts && r.gameEntities == s.gameEntities
      && r.observations == s.observations && r.policy == s.policy
  {
    hide DeckCards, AddCards, DeckStateOf, PositiveCounts;
  }

  // From a read to the reducer.

  /** The counts as a list of card ids, as the client passes them. */
  function Repeat(id: CardId, n: nat): seq<CardId> {
    seq(n, _ => id)
  }

  function FlattenKeys(keys: seq<CardId>, counts: map<CardId, nat>): seq<CardId>
    requires forall k | k in keys :: k in counts
  {
    if keys == [] then [] else Repeat(keys[0], counts[keys[0]]) + FlattenKeys(keys[1..], counts)
  }

  function Flatten(counts: map<CardId, nat>): seq<CardId> {
    FlattenKeys(KeyList(counts), counts)
  }

  lemma {:induction false} AddCardsConcat(counts: map<CardId, nat>, a: seq<CardId>, b: seq<CardId>)
    ensures AddCards(counts, a + b) == AddCards(AddCards(counts, a), b)
    decreases a
  {
    hide AddCard;
    if a == [] {
      assert a + b == b;
    } else {
      assert (a + b)[0] == a[0] && (a + b)[1..] == a[1..] + b;
      AddCardsConcat(AddCard(counts, a[0]), a[1..], b);
    }
  }

  lemma {:induction false} AddRepeated(counts: map<CardId, nat>, id: CardId, n: nat)
    requires IsRealCardId(id)
    ensures AddCards(counts, Repeat(id, n)) == if n == 0 then counts else counts[id := Count(counts, id) + n]
    decreases n
  {
    if n > 0 {
      assert Repeat(id, n)[1..] == Repeat(id, n - 1);
      AddRepeated(AddCard(counts, id), id, n - 1);
    }
  }

  lemma {:induction false} AddFlattened(counts: map<CardId, nat>, keys: seq<CardId>, all: map<CardId, nat>)
    requires forall k | k in keys :: k in all && all[k] > 0 && k !in counts && IsRealCardId(k)
    requires forall i, j | 0 <= i < j < |keys| :: keys[i] != keys[j]
    ensures AddCards(counts, FlattenKeys(keys, all)) == counts + map k | k in keys :: all[k]
    decreases keys
  {
    hide AddCards, IsRealCardId;
    if keys == [] {
      AddNone(counts);
      assert counts + map[] == counts;
    } else {
      var id, rest := keys[0], keys[1..];
      AddCardsConcat(counts, Repeat(id, all[id]), FlattenKeys(rest, all));
      AddRepeated(counts, id, all[id]);
      AddFlattened(counts[id := all[id]], rest, all);
      TableCons(counts, keys, all);
    }
  }

  lemma TableCons(counts: map<CardId, nat>, keys: seq<CardId>, all: map<CardId, nat>)
    requires keys != [] && forall k | k in keys :: k in all
    requires keys[0] !in keys[1..]
    ensures counts[keys[0] := all[keys[0]]] + (map k | k in keys[1..] :: all[k]) == counts + map k | k in keys :: all[k]
  {
    assert forall k | k in keys :: k == keys[0] || k in keys[1..];
  }

  lemma AddNone(counts: map<CardId, nat>)
    ensures AddCards(counts, []) == counts
  {
  }

  lemma {:induction false} FlattenLength(keys: seq<CardId>, counts: map<CardId, nat>)
    requires forall k | k in keys :: k in counts
    requires forall i, j | 0 <= i < j < |keys| :: keys[i] != keys[j]
    ensures |FlattenKeys(keys, counts)| == Total(map k | k in keys :: counts[k])
    decreases keys
  {
    hide Total;
    var all := map k | k in keys :: counts[k];
    if keys == [] {
      NothingTotal();
      assert all == map[];
    } else {
      var rest := map k | k in keys[1..] :: counts[k];
      FlattenLength(keys[1..], counts);
      TotalRemove(all, keys[0]);
      assert all - {keys[0]} == rest;
    }
  }

  lemma NothingTotal()
    ensures Total<CardId>(map[]) == 0
  {
  }

  lemma FlattenIsExact(counts: map<CardId, nat>)
    requires forall k | k in counts :: counts[k] > 0 && IsRealCardId(k)
    ensures |Flatten(counts)| == Total(counts) && AddCards(map[], Flatten(counts)) == counts
  {
    hide AddCards, IsRealCardId, KeyList, FlattenKeys, Total;
    var keys := KeyList(counts);
    KeysDistinct(counts);
    FlattenLength(keys, counts);
    AddFlattened(map[], keys, counts);
    TableOfKeys(keys, counts);
  }

  lemma KeysDistinct(counts: map<CardId, nat>)
    ensures forall i, j | 0 <= i < j < |KeyList(counts)| :: KeyList(counts)[i] != KeyList(counts)[j]
  {
    hide StringLess, KeyList;
    StringLessIsStrictTotal();
    KeyListIncreasing(counts);
    var keys := KeyList(counts);
    forall i, j | 0 <= i < j < |keys| ensures keys[i] != keys[j] {
      assert StringLess(keys[i], keys[j]);
    }
  }

  lemma TableOfKeys(keys: seq<CardId>, counts: map<CardId, nat>)
    requires forall k :: k in keys <==> k in counts
    ensures (map k | k in keys :: counts[k]) == counts && map[] + (map k | k in keys :: counts[k]) == counts
  {
  }

  lemma {:induction false} FlattenedAreReal(keys: seq<CardId>, counts: map<CardId, nat>)
    requires forall k | k in keys :: k in counts && IsRealCardId(k)
    ensures forall i | 0 <= i < |FlattenKeys(keys, counts)| :: IsRealCardId(FlattenKeys(keys, counts)[i])
  {
    hide IsRealCardId;
    if keys != [] {
      FlattenedAreReal(keys[1..], counts);
    }
  }

  lemma {:induction false} CountedPositive(counts: map<CardId, nat>, cards: seq<Sidebar.SidebarCard>)
    requires forall k | k in counts :: counts[k] > 0
    ensures forall k | k in Sidebar.CountFrom(counts, cards) :: Sidebar.CountFrom(counts, cards)[k] > 0
    ensures forall k | k in Sidebar.CountFrom(counts, cards) ::
              k in counts || exists i | 0 <= i < |cards| :: cards[i].cardId == k
    decreases cards
  {
    if cards != [] {
      CountedPositive(Sidebar.AddVisible(counts, cards[0]), cards[1..]);
      assert forall i | 1 <= i < |cards| :: cards[i] == cards[1..][i - 1];
    }
  }

  /** A complete read of real cards that shows at least one, in a run whose phase allows the capacity, is accepted,
      and the deck it leaves is the read: every card with the summed quantity of its rows. */
  lemma CompleteReadBecomesTheDeck(s: ReducerState, read: Sidebar.DeckRead)
    requires Sidebar.Consistent(read) && read.status.Complete? && read.visible != []
    requires forall i | 0 <= i < |read.visible| :: IsRealCardId(read.visible[i].cardId)
    requires s.snapshot.run.draftDeckId.Some?
    ensures read.count.Some?
    ensures var counts := Sidebar.CountFrom(map[], read.visible);
      var count := read.count.value;
      && (BaselineErrorOf(s, Flatten(counts), count.observed, count.capacity).None? <==>
            count.capacity == 30 || s.snapshot.run.draftPhase.ActiveDeck?)
      && Rebased(s, Flatten(counts), count.capacity).deckCounts == counts
      && forall id :: Count(counts, id) == Sidebar.QuantityOf(read.visible, id)
  {
    hide AddCards, IsRealCardId, Sidebar.CountFrom, Rebased, FlattenKeys;
    var counts := Sidebar.CountFrom(map[], read.visible);
    Sidebar.CompleteAddsUp(read);
    CountedPositive(map[], read.visible);
    FlattenIsExact(counts);
    FlattenedAreReal(KeyList(counts), counts);
    RebaseKeepsTheRest(s, Flatten(counts), read.count.value.capacity);
    assert read.count.value.observed > 0;
    forall id ensures Count(counts, id) == Sidebar.CountOf(counts, id) {
    }
  }
}
