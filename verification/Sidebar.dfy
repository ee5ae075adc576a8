/** Reading the deck sidebar and reconciling it with the known deck. Texts arrive already split into anchors,
    counters and rows; quantities are saturating bytes. */
module Sidebar {
  import opened Prelude
  import opened Ordered

  const ARENA_DECK_CAPACITY: nat := 30
  const ARENA_EDITOR_DECK_CAPACITY: nat := 35

  datatype DeckCount = DeckCount(observed: U8, capacity: U8)

  type Quantity = n: int | 1 <= n <= 30 witness 1

  /** One OCR text: a row carries the ids of the eligible cards with its name. */
  datatype Observation =
    | Anchor
    | Counter(count: DeckCount)
    | InvalidCounter
    | Row(candidates: seq<string>, quantity: Quantity)
    | InvalidQuantity

  datatype SidebarCard = SidebarCard(cardId: string, quantity: Quantity)

  datatype Status = Unanchored | MissingCount | Complete | Partial | Inconsistent

  datatype Issue = AmbiguousCardName(candidates: seq<string>) | BadQuantity | BadDeckCount

  datatype DeckRead = DeckRead(
    anchored: bool, count: Option<DeckCount>, visible: seq<SidebarCard>, visibleQuantity: nat, status: Status,
    issues: seq<Issue>)

  // Counting.

  function Quantities(cards: seq<SidebarCard>): nat {
    if cards == [] then 0 else cards[0].quantity + Quantities(cards[1..])
  }

  function QuantityOf(cards: seq<SidebarCard>, id: string): nat {
    if cards == [] then 0
    else (if cards[0].cardId == id then cards[0].quantity else 0) + QuantityOf(cards[1..], id)
  }

  type Counts = map<string, nat>

  function CountOf(counts: Counts, id: string): nat {
    if id in counts then counts[id] else 0
  }

  /** `u8::saturating_add`. */
  function SaturatingAdd(a: nat, b: nat): nat {
    if a + b <= 255 then a + b else 255
  }

  function AddVisible(counts: Counts, card: SidebarCard): Counts {
    counts[card.cardId := SaturatingAdd(CountOf(counts, card.cardId), card.quantity)]
  }

  function CountFrom(counts: Counts, cards: seq<SidebarCard>): Counts
    decreases cards
  {
    if cards == [] then counts else CountFrom(AddVisible(counts, cards[0]), cards[1..])
  }

  /** Visible lower bounds, repeated rows aggregated. */
  method CardCounts(cards: seq<SidebarCard>) returns (counts: Counts)
    ensures counts == CountFrom(map[], cards)
  {
    counts := map[];
    for i := 0 to |cards|
      invariant CountFrom(counts, cards[i..]) == CountFrom(map[], cards)
    {
      assert cards[i..][1..] == cards[i + 1..];
      var id := cards[i].cardId;
      var quantity := if id in counts then counts[id] else 0;
      counts := counts[id := SaturatingAdd(quantity, cards[i].quantity)];
    }
  }

  /** Below the byte limit nothing saturates: every card's count and the total are exact. */
  lemma {:induction false} CountsExact(counts: Counts, cards: seq<SidebarCard>)
    requires Total(counts) + Quantities(cards) <= 255
    ensures var after := CountFrom(counts, cards);
      && Total(after) == Total(counts) + Quantities(cards)
      && forall id :: CountOf(after, id) == CountOf(counts, id) + QuantityOf(cards, id)
    decreases cards
  {
    if cards != [] {
      var id := cards[0].cardId;
      TotalUpdate(counts, id, CountOf(counts, id) + cards[0].quantity);
      CountAtMostTotal(counts, id);
      CountsExact(AddVisible(counts, cards[0]), cards[1..]);
    }
  }

  lemma CountAtMostTotal(counts: Counts, id: string)
    ensures CountOf(counts, id) <= Total(counts)
  {
    if id in counts {
      TotalRemove(counts, id);
    }
  }

  // Interpreting the texts.

  /** The first valid counter. */
  function FirstCounter(texts: seq<Observation>): Option<DeckCount> {
    if texts == [] then None
    else if texts[0].Counter? then Some(texts[0].count) else FirstCounter(texts[1..])
  }

  /** The rows with exactly one eligible card. */
  function VisibleCards(texts: seq<Observation>): seq<SidebarCard> {
    if texts == [] then [] else RowCard(texts[0]) + VisibleCards(texts[1..])
  }

  /** Counters that cannot be read are reported whether or not the sidebar is there. */
  function CounterIssue(text: Observation): seq<Issue> {
    if text.InvalidCounter? then [BadDeckCount] else []
  }

  /** A row that names several cards, or whose quantity cannot be read. */
  function RowIssue(text: Observation): seq<Issue> {
    match text
    case Row(candidates, _) => if |candidates| > 1 then [AmbiguousCardName(candidates)] else []
    case InvalidQuantity => [BadQuantity]
    case _ => []
  }

  function Issues(texts: seq<Observation>, issueOf: Observation -> seq<Issue>): seq<Issue> {
    if texts == [] then [] else issueOf(texts[0]) + Issues(texts[1..], issueOf)
  }

  lemma {:induction false} IssuesSnoc(texts: seq<Observation>, text: Observation, issueOf: Observation -> seq<Issue>)
    ensures Issues(texts + [text], issueOf) == Issues(texts, issueOf) + issueOf(text)
  {
    if texts == [] {
      assert [text][1..] == [] && texts + [text] == [text];
    } else {
      assert (texts + [text])[0] == texts[0] && (texts + [text])[1..] == texts[1..] + [text];
      IssuesSnoc(texts[1..], text, issueOf);
    }
  }

  function StatusOf(anchored: bool, count: Option<DeckCount>, visibleQuantity: nat): Status {
    if !anchored then Unanchored
    else if count.None? then MissingCount
    else if (count.value.capacity != ARENA_DECK_CAPACITY && count.value.capacity != ARENA_EDITOR_DECK_CAPACITY)
            || count.value.observed > count.value.capacity
    then Inconsistent
    else if visibleQuantity == count.value.observed then Complete
    else if visibleQuantity < count.value.observed then Partial
    else Inconsistent
  }

  /** The card a row stands for. */
  function RowCard(text: Observation): seq<SidebarCard> {
    if text.Row? && |text.candidates| == 1 then [SidebarCard(text.candidates[0], text.quantity)] else []
  }

  lemma {:induction false} VisibleSnoc(texts: seq<Observation>, text: Observation)
    ensures VisibleCards(texts + [text]) == VisibleCards(texts) + RowCard(text)
  {
    hide RowCard;
    if texts == [] {
      assert [text][1..] == [] && texts + [text] == [text];
    } else {
      assert (texts + [text])[0] == texts[0] && (texts + [text])[1..] == texts[1..] + [text];
      VisibleSnoc(texts[1..], text);
    }
  }

  lemma {:induction false} CounterSnoc(texts: seq<Observation>, text: Observation)
    ensures FirstCounter(texts + [text])
         == if FirstCounter(texts).Some? then FirstCounter(texts)
            else if text.Counter? then Some(text.count) else None
  {
    if texts == [] {
      assert [text][1..] == [] && texts + [text] == [text];
    } else {
      assert (texts + [text])[0] == texts[0] && (texts + [text])[1..] == texts[1..] + [text];
      CounterSnoc(texts[1..], text);
    }
  }

  lemma {:induction false} QuantitiesSnoc(cards: seq<SidebarCard>, card: SidebarCard)
    ensures Quantities(cards + [card]) == Quantities(cards) + card.quantity
  {
    if cards == [] {
      assert [card][1..] == [] && cards + [card] == [card];
    } else {
      assert (cards + [card])[0] == cards[0] && (cards + [card])[1..] == cards[1..] + [card];
      QuantitiesSnoc(cards[1..], card);
    }
  }

  method ReadCounters(texts: seq<Observation>) returns (count: Option<DeckCount>, issues: seq<Issue>)
    ensures count == FirstCounter(texts) && issues == Issues(texts, CounterIssue)
  {
    count, issues := None, [];
    for i := 0 to |texts|
      invariant count == FirstCounter(texts[..i]) && issues == Issues(texts[..i], CounterIssue)
    {
      CounterSnoc(texts[..i], texts[i]);
      IssuesSnoc(texts[..i], texts[i], CounterIssue);
      assert texts[..i + 1] == texts[..i] + [texts[i]];
      if texts[i].Counter? && count.None? {
        count := Some(texts[i].count);
      } else if texts[i].InvalidCounter? {
        issues := issues + [BadDeckCount];
      }
    }
    assert texts[..|texts|] == texts;
  }

  method ReadRows(texts: seq<Observation>) returns (visible: seq<SidebarCard>, total: nat, issues: seq<Issue>)
    ensures visible == VisibleCards(texts) && total == Quantities(visible) && issues == Issues(texts, RowIssue)
  {
    visible, total, issues := [], 0, [];
    for i := 0 to |texts|
      invariant visible == VisibleCards(texts[..i]) && total == Quantities(visible)
      invariant issues == Issues(texts[..i], RowIssue)
    {
      VisibleSnoc(texts[..i], texts[i]);
      IssuesSnoc(texts[..i], texts[i], RowIssue);
      assert texts[..i + 1] == texts[..i] + [texts[i]];
      match texts[i] {
        case Row(candidates, quantity) =>
          if |candidates| == 1 {
            QuantitiesSnoc(visible, SidebarCard(candidates[0], quantity));
            visible := visible + [SidebarCard(candidates[0], quantity)];
            total := total + quantity;
          } else if |candidates| > 1 {
            issues := issues + [AmbiguousCardName(candidates)];
          }
        case InvalidQuantity =>
          issues := issues + [BadQuantity];
        case _ =>
      }
    }
    assert texts[..|texts|] == texts;
  }

  /** A validated read of unordered sidebar texts. */
  method Interpret(texts: seq<Observation>) returns (read: DeckRead)
    ensures read.anchored <==> Anchor in texts
    ensures read.count == FirstCounter(texts)
    ensures read.visible == if read.anchored then VisibleCards(texts) else []
    ensures read.visibleQuantity == Quantities(read.visible)
    ensures read.status == StatusOf(read.anchored, read.count, read.visibleQuantity)
    ensures read.issues == Issues(texts, CounterIssue) + if read.anchored then Issues(texts, RowIssue) else []
  {
    var anchored := exists i | 0 <= i < |texts| :: texts[i].Anchor?;
    var count, issues := ReadCounters(texts);
    var visible: seq<SidebarCard>, total: nat := [], 0;
    if anchored {
      var rowIssues;
      visible, total, rowIssues := ReadRows(texts);
      issues := issues + rowIssues;
    }
    read := DeckRead(anchored, count, visible, total, StatusOf(anchored, count, total), issues);
  }

  /** A read as `Interpret` leaves it. */
  predicate Consistent(read: DeckRead) {
    && read.visibleQuantity == Quantities(read.visible)
    && read.status == StatusOf(read.anchored, read.count, read.visibleQuantity)
  }

  /** A complete read: the aggregated counts are exact and add up to the counter. */
  lemma CompleteAddsUp(read: DeckRead)
    requires Consistent(read) && read.status.Complete?
    ensures read.count.Some? && Total(CountFrom(map[], read.visible)) == read.count.value.observed
    ensures forall id :: CountOf(CountFrom(map[], read.visible), id) == QuantityOf(read.visible, id)
  {
    CountsExact(map[], read.visible);
  }

  // Reconciling.

  datatype Kind = AuthoritativeReplace | PartialLowerBoundMerge | Unchanged

  datatype Reconciliation = Reconciliation(kind: Kind, counts: Counts)

  function Merged(known: Counts, visible: Counts): Counts {
    map id | id in known.Keys + visible.Keys :: Max(CountOf(known, id), CountOf(visible, id))
  }

  ghost function Reconciled(known: Counts, read: DeckRead): Reconciliation {
    var visible := CountFrom(map[], read.visible);
    if read.status.Complete? then Reconciliation(AuthoritativeReplace, visible)
    else if read.count.None? || !read.status.Partial? then Reconciliation(Unchanged, known)
    else if Total(Merged(known, visible)) > read.count.value.observed then Reconciliation(Unchanged, known)
    else
      var merged := Merged(known, visible);
      Reconciliation(if merged != known then PartialLowerBoundMerge else Unchanged, merged)
  }

  method SumCounts(counts: Counts) returns (total: nat)
    ensures total == Total(counts)
  {
    total := 0;
    var rest := counts;
    while rest != map[]
      invariant total + Total(rest) == Total(counts)
      decreases |rest|
    {
      var id :| id in rest;
      TotalRemove(rest, id);
      total := total + rest[id];
      rest := rest - {id};
    }
  }

  lemma RaiseOne(known: Counts, visible: Counts, rest: set<string>, id: string)
    requires id in visible && id in rest
    ensures Merged(known, visible - (rest - {id}))
         == Merged(known, visible - rest)[id := Max(CountOf(Merged(known, visible - rest), id), visible[id])]
  {
  }

  /** Raises every known count to the visible one. */
  method RaiseTo(known: Counts, visible: Counts) returns (merged: Counts)
    ensures merged == Merged(known, visible)
  {
    var rest := visible.Keys;
    merged := known;
    assert visible - rest == map[] && Merged(known, map[]) == known;
    while rest != {}
      invariant rest <= visible.Keys && merged == Merged(known, visible - rest)
      decreases |rest|
    {
      hide Merged;
      var id :| id in rest;
      RaiseOne(known, visible, rest, id);
      var quantity := if id in merged then merged[id] else 0;
      merged := merged[id := if quantity >= visible[id] then quantity else visible[id]];
      rest := rest - {id};
    }
    assert visible - rest == visible;
  }

  /** Reconciles a read with the log-derived deck. */
  method Reconcile(known: Counts, read: DeckRead) returns (r: Reconciliation)
    ensures r == Reconciled(known, read)
  {
    var visible := CardCounts(read.visible);
    if read.status.Complete? {
      return Reconciliation(AuthoritativeReplace, visible);
    }
    if read.count.None? || !read.status.Partial? {
      return Reconciliation(Unchanged, known);
    }
    var merged := RaiseTo(known, visible);
    var total := SumCounts(merged);
    if total > read.count.value.observed {
      return Reconciliation(Unchanged, known);
    }
    return Reconciliation(if merged != known then PartialLowerBoundMerge else Unchanged, merged);
  }

  /** A deck that holds every known copy and every row of the read, and no more cards than the counter shows. */
  ghost predicate Explains(deck: Counts, known: Counts, read: DeckRead) {
    && read.count.Some? && Total(deck) <= read.count.value.observed
    && forall id :: CountOf(deck, id) >= CountOf(known, id) && CountOf(deck, id) >= QuantityOf(read.visible, id)
  }

  lemma {:induction false} TotalMonotone(a: Counts, b: Counts)
    requires forall id :: CountOf(a, id) <= CountOf(b, id)
    ensures Total(a) <= Total(b)
    decreases |a|
  {
    if a != map[] {
      var id :| id in a;
      var smaller, lesser := a - {id}, b[id := CountOf(b, id) - a[id]];
      TotalRemove(a, id);
      TotalUpdate(b, id, CountOf(b, id) - a[id]);
      forall other ensures CountOf(smaller, other) <= CountOf(lesser, other) {
        assert other != id ==> CountOf(a, other) <= CountOf(b, other);
      }
      assert CountOf(a, id) <= CountOf(b, id);
      TotalMonotone(smaller, lesser);
    }
  }

  /** The rows of a partial read add up below the counter, so none of them saturates. */
  lemma PartialRowsExact(read: DeckRead)
    requires Consistent(read) && read.status.Partial?
    ensures read.count.Some? && read.visibleQuantity < read.count.value.observed
    ensures forall id :: CountOf(CountFrom(map[], read.visible), id) == QuantityOf(read.visible, id)
  {
    CountsExact(map[], read.visible);
  }

  /** A partial merge is accepted if and only if some deck within the counter explains both the known cards and the
      rows, and then it is the least such deck; otherwise the known deck stays as it was. */
  lemma MergeIsLeast(known: Counts, read: DeckRead)
    requires Consistent(read) && read.status.Partial?
    ensures var after := Reconciled(known, read).counts;
      if exists deck: Counts :: Explains(deck, known, read) then
        && Explains(after, known, read)
        && (forall id :: CountOf(after, id) == Max(CountOf(known, id), QuantityOf(read.visible, id)))
        && (forall deck: Counts, id | Explains(deck, known, read) :: CountOf(after, id) <= CountOf(deck, id))
      else after == known
  {
    hide Consistent, QuantityOf;
    PartialRowsExact(read);
    var merged: Counts := Merged(known, CountFrom(map[], read.visible));
    forall id ensures CountOf(merged, id) == Max(CountOf(known, id), QuantityOf(read.visible, id)) {
    }
    forall deck: Counts | Explains(deck, known, read) ensures Total(merged) <= Total(deck) {
      TotalMonotone(merged, deck);
    }
    if Total(merged) <= read.count.value.observed {
      assert Explains(merged, known, read);
    }
  }

  /** Whatever the read, a partial merge only raises counts and stays within the counter, or leaves the known deck as it
      was; of a read as `Interpret` leaves it, no row is lost. */
  lemma MergeIsConservative(known: Counts, read: DeckRead)
    requires read.status.Partial? && read.count.Some?
    ensures var after, visible := Reconciled(known, read).counts, CountFrom(map[], read.visible);
      if Total(Merged(known, visible)) <= read.count.value.observed then
        && Total(after) <= read.count.value.observed
        && (forall id :: CountOf(after, id) >= CountOf(known, id) && CountOf(after, id) >= CountOf(visible, id))
        && (forall id :: CountOf(after, id) == CountOf(known, id) || CountOf(after, id) == CountOf(visible, id))
        && (Consistent(read) ==> forall id :: CountOf(after, id) >= QuantityOf(read.visible, id))
      else after == known
  {
    if Consistent(read) {
      PartialRowsExact(read);
    }
  }

  /** Nothing but a complete read ever lowers a count. */
  lemma OnlyCompleteLowers(known: Counts, read: DeckRead, id: string)
    requires CountOf(Reconciled(known, read).counts, id) < CountOf(known, id)
    ensures read.status.Complete?
  {
  }

  /** Reconciling with the same read again changes nothing. */
  lemma ReconcileIdempotent(known: Counts, read: DeckRead)
    ensures Reconciled(Reconciled(known, read).counts, read).counts == Reconciled(known, read).counts
  {
    var visible := CountFrom(map[], read.visible);
    assert Merged(Merged(known, visible), visible) == Merged(known, visible);
  }
}
