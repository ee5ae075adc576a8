/** What a sidebar read says about the texts it was made of, and what becomes of it. */
module SidebarReads {
  import opened Prelude
  import opened Ordered
  import opened ArenaState
  import opened ReducerSpec
  import opened Sidebar
  import opened SidebarBaseline

  // From texts to a read.

  /** The counter of a read is the first one that could be read. */
  lemma {:induction false} CounterIs(texts: seq<Observation>)
    ensures FirstCounter(texts).None? <==> forall i | 0 <= i < |texts| :: !texts[i].Counter?
    ensures FirstCounter(texts).Some? ==>
      exists i | 0 <= i < |texts| ::
        texts[i] == Counter(FirstCounter(texts).value) && forall j | 0 <= j < i :: !texts[j].Counter?
  {
    if texts != [] && !texts[0].Counter? {
      var rest := texts[1..];
      CounterIs(rest);
      if FirstCounter(rest).Some? {
        var i :| 0 <= i < |rest| && rest[i] == Counter(FirstCounter(rest).value) && forall j | 0 <= j < i :: !rest[j].Counter?;
        assert texts[i + 1] == rest[i];
        forall j | 0 <= j < i + 1 ensures !texts[j].Counter? {
          assert j > 0 ==> texts[j] == rest[j - 1];
        }
      } else {
        forall i | 0 <= i < |texts| ensures !texts[i].Counter? {
          assert i > 0 ==> texts[i] == rest[i - 1];
        }
      }
    }
  }

  /** A card is visible as often as a row names it, and it alone, with this quantity. */
  lemma {:induction false} VisibleRows(texts: seq<Observation>, card: SidebarCard)
    ensures multiset(VisibleCards(texts))[card] == multiset(texts)[Row([card.cardId], card.quantity)]
  {
    if texts != [] {
      VisibleRows(texts[1..], card);
      assert texts == [texts[0]] + texts[1..];
      assert texts[0].Row? && |texts[0].candidates| == 1 ==> texts[0].candidates == [texts[0].candidates[0]];
    }
  }

  lemma {:induction false} IssueCount(
    texts: seq<Observation>, issueOf: Observation -> seq<Issue>, issue: Issue, source: Observation)
    requires forall text :: multiset(issueOf(text))[issue] == if text == source then 1 else 0
    ensures multiset(Issues(texts, issueOf))[issue] == multiset(texts)[source]
  {
    if texts != [] {
      IssueCount(texts[1..], issueOf, issue, source);
      assert texts == [texts[0]] + texts[1..];
    }
  }

  /** Every unreadable counter and every unreadable quantity is reported once. */
  lemma UnreadableReported(texts: seq<Observation>)
    ensures multiset(Issues(texts, CounterIssue))[BadDeckCount] == multiset(texts)[InvalidCounter]
    ensures multiset(Issues(texts, RowIssue))[BadQuantity] == multiset(texts)[InvalidQuantity]
  {
    IssueCount(texts, CounterIssue, BadDeckCount, InvalidCounter);
    IssueCount(texts, RowIssue, BadQuantity, InvalidQuantity);
  }

  /** An ambiguous name is reported if and only if some row names these several cards. */
  lemma {:induction false} AmbiguityReported(texts: seq<Observation>, candidates: seq<string>)
    ensures AmbiguousCardName(candidates) in Issues(texts, RowIssue)
       <==> |candidates| > 1 && exists i | 0 <= i < |texts| :: texts[i].Row? && texts[i].candidates == candidates
  {
    if texts != [] {
      var rest := texts[1..];
      AmbiguityReported(rest, candidates);
      assert forall i | 1 <= i < |texts| :: texts[i] == rest[i - 1];
      assert forall i | 0 <= i < |rest| :: rest[i] == texts[i + 1];
    }
  }

  /** The number of cards on the rows that name one card each. */
  function RowTotal(texts: seq<Observation>): nat {
    if texts == [] then 0
    else (if texts[0].Row? && |texts[0].candidates| == 1 then texts[0].quantity else 0) + RowTotal(texts[1..])
  }

  lemma {:induction false} QuantitiesAreRows(texts: seq<Observation>)
    ensures Quantities(VisibleCards(texts)) == RowTotal(texts)
  {
    if texts != [] {
      QuantitiesAreRows(texts[1..]);
      var first, rest := RowCard(texts[0]), VisibleCards(texts[1..]);
      assert first == [] ==> first + rest == rest;
      assert first != [] ==> (first + rest)[1..] == rest;
    }
  }

  /** A counter that a deck of 30, or of 35 in the editor, can show. */
  predicate Plausible(count: DeckCount) {
    (count.capacity == 30 || count.capacity == 35) && count.observed <= count.capacity
  }

  /** When a read is complete, partial or contradictory, by the texts alone. */
  lemma StatusIs(texts: seq<Observation>)
    ensures var anchored, count := Anchor in texts, FirstCounter(texts);
      var status := StatusOf(anchored, count, Quantities(if anchored then VisibleCards(texts) else []));
      && (status.Unanchored? <==> Anchor !in texts)
      && (status.MissingCount? <==> anchored && forall i | 0 <= i < |texts| :: !texts[i].Counter?)
      && (status.Complete? <==> anchored && count.Some? && Plausible(count.value) && RowTotal(texts) == count.value.observed)
      && (status.Partial? <==> anchored && count.Some? && Plausible(count.value) && RowTotal(texts) < count.value.observed)
      && (status.Inconsistent? <==>
            anchored && count.Some? && !(Plausible(count.value) && RowTotal(texts) <= count.value.observed))
  {
    hide FirstCounter, VisibleCards, RowTotal, Quantities;
    CounterIs(texts);
    QuantitiesAreRows(texts);
  }

  // From a read to the known deck.

  /** A complete read replaces the known deck, whatever was known: afterwards every card has the quantity of its rows and
      the deck the size of the counter. */
  lemma CompleteReplaces(known: Counts, read: DeckRead)
    requires Consistent(read) && read.status.Complete?
    ensures var after := Reconciled(known, read);
      && after.kind.AuthoritativeReplace? && read.count.Some? && Total(after.counts) == read.count.value.observed
      && forall id :: CountOf(after.counts, id) == QuantityOf(read.visible, id)
  {
    hide StatusOf, Quantities;
    CompleteAddsUp(read);
  }

  /** Which kind of change is reported: a read that is neither complete nor partial changes nothing. */
  lemma KindIs(known: Counts, read: DeckRead)
    ensures var after := Reconciled(known, read);
      && (after.kind.AuthoritativeReplace? <==> read.status.Complete?)
      && (after.kind.PartialLowerBoundMerge? <==> !read.status.Complete? && after.counts != known)
      && (after.kind.Unchanged? <==> !read.status.Complete? && after.counts == known)
      && (!read.status.Complete? && !read.status.Partial? ==> after.counts == known)
  {
  }

  // From a deck to the reducer.

  /** The capacities that are taken: up to 30 at any time, 35 while the deck is edited. */
  predicate Fits(s: ReducerState, observed: U16, expected: U16) {
    observed <= expected && (1 <= expected <= 30 || (expected == 35 && s.snapshot.run.draftPhase == DraftPhase.ActiveDeck))
  }

  lemma CapacityTakenIff(s: ReducerState, observed: U16, expected: U16)
    ensures CapacityError(s, observed, expected).None? <==> Fits(s, observed, expected)
    ensures CapacityError(s, observed, expected) == Some(CapacityOutsideEditor(expected)) <==>
      observed <= expected && expected > 30 && !Fits(s, observed, expected)
  {
  }

  /** A complete baseline is taken if and only if a run is known, every observed card is listed, each is real, there is at
      least one, and the capacity fits. */
  lemma BaselineTakenIff(s: ReducerState, cardIds: seq<CardId>, observed: U16, expected: U16)
    ensures BaselineErrorOf(s, cardIds, observed, expected).None? <==>
      && s.snapshot.run.draftDeckId.Some?
      && |cardIds| == observed && observed > 0 && (forall id | id in cardIds :: IsRealCardId(id))
      && Fits(s, observed, expected)
  {
    hide IsRealCardId;
    CapacityTakenIff(s, observed, expected);
    assert (exists i | 0 <= i < |cardIds| :: !IsRealCardId(cardIds[i])) <==> !forall id | id in cardIds :: IsRealCardId(id);
  }
}
