/** Multi-frame evidence for the cards of one visible offer. Confidences are real numbers. */
module Evidence {
  import opened Prelude
  import opened Text
  import opened Ordered

  const U32_MAX: nat := 0xFFFF_FFFF

  datatype OfferSource = ScreenCapture | External

  datatype OfferCandidate = OfferCandidate(cardId: string, confidence: real, distance: Option<real>)

  datatype DetectedOffer = DetectedOffer(candidates: seq<OfferCandidate>, source: OfferSource)

  datatype DetectionResult = DetectionResult(
    expectedOfferCount: nat, offers: seq<DetectedOffer>, minimumConfidence: real)

  datatype WithheldReason =
    | ExpectedOfferCount(expected: nat, actual: nat)
    | MissingCandidate(slot: nat)
    | LowConfidence(slot: nat, confidence: real, required: real)
    | InsufficientObservations(observed: nat, minimum: nat)
    | InvalidConfidenceThreshold

  datatype Recommendation = Ready(cardIds: seq<string>) | Withheld(reason: WithheldReason)

  datatype RecognitionError =
    | InvalidAggregationConfig
    | InvalidMatcherConfig
    | InvalidGeometry
    | WrongOfferCount(expected: nat, actual: nat)
    | TooManyObservations
    | InvalidCardId
    | InvalidCandidateEvidence
    | NoObservations

  predicate UnitInterval(x: real) { 0.0 <= x <= 1.0 }

  // Recommendations.

  function RecommendFrom(result: DetectionResult, slot: nat): Recommendation
    requires slot <= |result.offers|
    decreases |result.offers| - slot
  {
    if slot == |result.offers| then Ready([])
    else
      var candidates := result.offers[slot].candidates;
      if candidates == [] then Withheld(MissingCandidate(slot))
      else if Trim(candidates[0].cardId) == "" || candidates[0].confidence < result.minimumConfidence
      then Withheld(LowConfidence(slot, candidates[0].confidence, result.minimumConfidence))
      else
        match RecommendFrom(result, slot + 1)
        case Ready(cardIds) => Ready([candidates[0].cardId] + cardIds)
        case Withheld(reason) => Withheld(reason)
  }

  function Recommend(result: DetectionResult): Recommendation {
    if result.expectedOfferCount == 0 || |result.offers| != result.expectedOfferCount
    then Withheld(ExpectedOfferCount(result.expectedOfferCount, |result.offers|))
    else if !UnitInterval(result.minimumConfidence) then Withheld(InvalidConfidenceThreshold)
    else RecommendFrom(result, 0)
  }

  // The accumulator as a value.

  datatype AggregationConfig = AggregationConfig(minimumFrames: nat, minimumMargin: real, maxCandidates: nat) {
    predicate Valid() { minimumFrames > 0 && UnitInterval(minimumMargin) && maxCandidates > 0 }
  }

  datatype CandidateEvidence = CandidateEvidence(
    confidenceSum: real, distanceSum: real, support: nat, source: OfferSource)

  type Slot = map<string, CandidateEvidence>

  datatype Accumulated = Accumulated(frames: nat, slots: seq<Slot>)

  function EvidenceOf(slot: Slot, id: string, source: OfferSource): CandidateEvidence {
    if id in slot then slot[id] else CandidateEvidence(0.0, 0.0, 0, source)
  }

  /** One candidate's evidence; the sums are added before the support counter can overflow. */
  function AddCandidate(slot: Slot, c: OfferCandidate, source: OfferSource): (Slot, Option<RecognitionError>) {
    if Trim(c.cardId) == "" then (slot, Some(InvalidCardId))
    else if c.distance.Some? && !UnitInterval(c.distance.value) then (slot, Some(InvalidCandidateEvidence))
    else
      var old_ := EvidenceOf(slot, c.cardId, source);
      var summed := old_.(confidenceSum := old_.confidenceSum + c.confidence,
                          distanceSum := old_.distanceSum + (if c.distance.Some? then c.distance.value else 1.0));
      if old_.support == U32_MAX then (slot[c.cardId := summed], Some(TooManyObservations))
      else (slot[c.cardId := summed.(support := old_.support + 1)], None)
  }

  function AddCandidates(slot: Slot, candidates: seq<OfferCandidate>, source: OfferSource):
    (Slot, Option<RecognitionError>)
    decreases candidates
  {
    if candidates == [] then (slot, None)
    else
      var added := AddCandidate(slot, candidates[0], source);
      if added.1.Some? then added else AddCandidates(added.0, candidates[1..], source)
  }

  function Top(offer: DetectedOffer, max: nat): seq<OfferCandidate> {
    if |offer.candidates| <= max then offer.candidates else offer.candidates[..max]
  }

  function AddOffers(slots: seq<Slot>, offers: seq<DetectedOffer>, max: nat, slot: nat):
    (r: (seq<Slot>, Option<RecognitionError>))
    requires |slots| == |offers| && slot <= |slots|
    ensures |r.0| == |slots|
    decreases |slots| - slot
  {
    if slot == |slots| then (slots, None)
    else
      var added := AddCandidates(slots[slot], Top(offers[slot], max), offers[slot].source);
      if added.1.Some? then (slots[slot := added.0], added.1)
      else AddOffers(slots[slot := added.0], offers, max, slot + 1)
  }

  /** A frame that fails halfway has been counted, and part of its evidence kept. */
  function Observe(config: AggregationConfig, s: Accumulated, result: DetectionResult):
    (r: (Accumulated, Option<RecognitionError>))
    ensures |r.0.slots| == |s.slots|
  {
    var count := |s.slots|;
    if result.expectedOfferCount != count || |result.offers| != count
    then (s, Some(WrongOfferCount(count, |result.offers|)))
    else if s.frames == U32_MAX then (s, Some(TooManyObservations))
    else
      var added := AddOffers(s.slots, result.offers, config.maxCandidates, 0);
      (Accumulated(s.frames + 1, added.0), added.1)
  }

  // Finishing.

  /** Confidence sums per card: all that ranking looks at. */
  type Standings = map<string, real>

  function StandingsOf(slot: Slot): Standings {
    map id | id in slot :: slot[id].confidenceSum
  }

  function MeanOf(standings: Standings, id: string, frames: nat): real
    requires frames > 0
  {
    (if id in standings then standings[id] else 0.0) / frames as real
  }

  predicate Better(standings: Standings, frames: nat, a: string, b: string)
    requires frames > 0
  {
    MeanOf(standings, a, frames) > MeanOf(standings, b, frames)
    || (MeanOf(standings, a, frames) == MeanOf(standings, b, frames) && StringLess(a, b))
  }

  function Order(standings: Standings, frames: nat): (string, string) -> bool
    requires frames > 0
  {
    (a, b) => Better(standings, frames, a, b)
  }

  lemma OrderIsTotal(standings: Standings, frames: nat)
    requires frames > 0
    ensures StrictTotal(Order(standings, frames))
  {
    StringLessIsStrictTotal();
  }

  /** Best mean first, then by card id. */
  function Ranked(standings: Standings, frames: nat): (ids: seq<string>)
    requires frames > 0
    ensures forall id :: id in ids <==> id in standings
  {
    OrderIsTotal(standings, frames);
    SortedKeys(standings.Keys, Order(standings, frames))
  }

  /** How much of its confidence the leader keeps. */
  function MarginFactor(config: AggregationConfig, lead: real): real {
    if config.minimumMargin <= 0.0 then 1.0
    else
      var ratio := (if lead > 0.0 then lead else 0.0) / config.minimumMargin;
      if ratio < 1.0 then ratio else 1.0
  }

  function TopConfidence(config: AggregationConfig, standings: Standings, frames: nat): real
    requires frames > 0 && Ranked(standings, frames) != []
  {
    var ids := Ranked(standings, frames);
    var mean := MeanOf(standings, ids[0], frames);
    if |ids| > 1 then mean * MarginFactor(config, mean - MeanOf(standings, ids[1], frames)) else mean
  }

  function Finished(config: AggregationConfig, slot: Slot, frames: nat, ids: seq<string>): seq<OfferCandidate>
    requires frames > 0 && forall id | id in ids :: id in slot && slot[id].support > 0
  {
    seq(|ids|, i requires 0 <= i < |ids| =>
      OfferCandidate(ids[i], MeanOf(StandingsOf(slot), ids[i], frames),
                     Some(slot[ids[i]].distanceSum / slot[ids[i]].support as real)))
  }

  predicate Supported(slot: Slot) {
    forall id | id in slot :: slot[id].support > 0
  }

  function FinishSlot(config: AggregationConfig, slot: Slot, frames: nat): DetectedOffer
    requires frames > 0 && Supported(slot)
  {
    var standings := StandingsOf(slot);
    var ids := Ranked(standings, frames);
    if ids == [] then DetectedOffer([], ScreenCapture)
    else
      var all := Finished(config, slot, frames, ids);
      var candidates := all[0 := all[0].(confidence := TopConfidence(config, standings, frames))];
      DetectedOffer(if |candidates| <= config.maxCandidates then candidates else candidates[..config.maxCandidates],
                    slot[ids[0]].source)
  }

  function Finish(config: AggregationConfig, minimum: real, s: Accumulated): DetectionResult
    requires s.frames > 0 && forall j | 0 <= j < |s.slots| :: Supported(s.slots[j])
  {
    DetectionResult(
      |s.slots|, seq(|s.slots|, j requires 0 <= j < |s.slots| => FinishSlot(config, s.slots[j], s.frames)), minimum)
  }

  /** `AggregatedDetection::recommendation`. */
  function RecommendOver(config: AggregationConfig, minimum: real, s: Accumulated): Recommendation
    requires s.frames > 0 && forall j | 0 <= j < |s.slots| :: Supported(s.slots[j])
  {
    if s.frames < config.minimumFrames then Withheld(InsufficientObservations(s.frames, config.minimumFrames))
    else Recommend(Finish(config, minimum, s))
  }

  // What frames say about a card, independent of the accumulator.

  datatype Tally = Tally(confidence: real, support: nat)

  function Plus(a: Tally, b: Tally): Tally {
    Tally(a.confidence + b.confidence, a.support + b.support)
  }

  const NO_TALLY := Tally(0.0, 0)

  function TallyOne(c: OfferCandidate, id: string): Tally {
    if c.cardId == id then Tally(c.confidence, 1) else NO_TALLY
  }

  function TallyIn(candidates: seq<OfferCandidate>, id: string): Tally {
    if candidates == [] then NO_TALLY else Plus(TallyOne(candidates[0], id), TallyIn(candidates[1..], id))
  }

  function TallyFrame(frame: DetectionResult, slot: nat, max: nat, id: string): Tally {
    if slot < |frame.offers| then TallyIn(Top(frame.offers[slot], max), id) else NO_TALLY
  }

  function TallyAll(frames: seq<DetectionResult>, slot: nat, max: nat, id: string): Tally {
    if frames == [] then NO_TALLY else Plus(TallyFrame(frames[0], slot, max, id), TallyAll(frames[1..], slot, max, id))
  }

  function Entry(slot: Slot, id: string): Tally {
    if id in slot then Tally(slot[id].confidenceSum, slot[id].support) else NO_TALLY
  }

  lemma AddCandidateTally(slot: Slot, c: OfferCandidate, source: OfferSource, id: string)
    requires Supported(slot) && AddCandidate(slot, c, source).1.None?
    ensures Supported(AddCandidate(slot, c, source).0)
    ensures Entry(AddCandidate(slot, c, source).0, id) == Plus(Entry(slot, id), TallyOne(c, id))
  {
    hide Trim;
  }

  lemma PlusAssociates(a: Tally, b: Tally, c: Tally)
    ensures Plus(Plus(a, b), c) == Plus(a, Plus(b, c)) && Plus(a, NO_TALLY) == a && Plus(NO_TALLY, a) == a
  {
  }

  lemma {:induction false} AddCandidatesTally(slot: Slot, candidates: seq<OfferCandidate>, source: OfferSource, id: string)
    requires Supported(slot) && AddCandidates(slot, candidates, source).1.None?
    ensures Supported(AddCandidates(slot, candidates, source).0)
    ensures Entry(AddCandidates(slot, candidates, source).0, id) == Plus(Entry(slot, id), TallyIn(candidates, id))
    decreases candidates
  {
    hide AddCandidate, Supported, Entry, Plus, TallyOne;
    if candidates == [] {
      PlusAssociates(Entry(slot, id), NO_TALLY, NO_TALLY);
    } else {
      var next := AddCandidate(slot, candidates[0], source);
      AddCandidateTally(slot, candidates[0], source, id);
      AddCandidatesTally(next.0, candidates[1..], source, id);
      PlusAssociates(Entry(slot, id), TallyOne(candidates[0], id), TallyIn(candidates[1..], id));
    }
  }

  lemma {:induction false} AddOffersTally(
    slots: seq<Slot>, offers: seq<DetectedOffer>, max: nat, from: nat, j: nat, id: string)
    requires |slots| == |offers| && from <= |slots| && j < |slots|
    requires (forall k | 0 <= k < |slots| :: Supported(slots[k])) && AddOffers(slots, offers, max, from).1.None?
    ensures var after := AddOffers(slots, offers, max, from).0;
      && (forall k | 0 <= k < |slots| :: Supported(after[k]))
      && Entry(after[j], id) == if j < from then Entry(slots[j], id)
                                else Plus(Entry(slots[j], id), TallyIn(Top(offers[j], max), id))
    decreases |slots| - from
  {
    hide AddCandidates, TallyIn, Top, Entry, Supported;
    if from < |slots| {
      var candidates, source := Top(offers[from], max), offers[from].source;
      var added := AddCandidates(slots[from], candidates, source);
      AddCandidatesTally(slots[from], candidates, source, id);
      AddOffersTally(slots[from := added.0], offers, max, from + 1, j, id);
    }
  }

  /** Observing frames one after another, all without error. */
  function ObserveAll(config: AggregationConfig, s: Accumulated, frames: seq<DetectionResult>): (r: Option<Accumulated>)
    ensures r.Some? ==> |r.value.slots| == |s.slots|
    decreases frames
  {
    if frames == [] then Some(s)
    else
      var next := Observe(config, s, frames[0]);
      if next.1.Some? then None else ObserveAll(config, next.0, frames[1..])
  }

  function Nothing(count: nat): Accumulated {
    Accumulated(0, seq(count, _ => map[]))
  }

  predicate AllSupported(s: Accumulated) {
    forall k | 0 <= k < |s.slots| :: Supported(s.slots[k])
  }

  lemma {:induction false} ObserveAllTally(
    config: AggregationConfig, s: Accumulated, frames: seq<DetectionResult>, j: nat, id: string)
    requires AllSupported(s) && j < |s.slots| && ObserveAll(config, s, frames).Some?
    ensures var after := ObserveAll(config, s, frames).value;
      && AllSupported(after) && after.frames == s.frames + |frames|
      && Entry(after.slots[j], id) == Plus(Entry(s.slots[j], id), TallyAll(frames, j, config.maxCandidates, id))
    decreases frames
  {
    hide AddOffers, TallyIn, Top, Entry, Supported;
    if frames != [] {
      var next := Observe(config, s, frames[0]);
      AddOffersTally(s.slots, frames[0].offers, config.maxCandidates, 0, j, id);
      ObserveAllTally(config, next.0, frames[1..], j, id);
    }
  }

  lemma AccumulatedTally(config: AggregationConfig, count: nat, frames: seq<DetectionResult>, j: nat, id: string)
    requires j < count && ObserveAll(config, Nothing(count), frames).Some?
    ensures var after := ObserveAll(config, Nothing(count), frames).value;
      && AllSupported(after) && after.frames == |frames|
      && Entry(after.slots[j], id) == TallyAll(frames, j, config.maxCandidates, id)
      && (id in after.slots[j] <==> TallyAll(frames, j, config.maxCandidates, id).support > 0)
  {
    hide TallyAll, ObserveAll;
    ObserveAllTally(config, Nothing(count), frames, j, id);
    assert Plus(NO_TALLY, TallyAll(frames, j, config.maxCandidates, id)) == TallyAll(frames, j, config.maxCandidates, id);
  }

  // Strong evidence.

  predicate Lists(candidates: seq<OfferCandidate>, id: string) {
    exists i | 0 <= i < |candidates| :: candidates[i].cardId == id
  }

  predicate Shows(frame: DetectionResult, slot: nat, max: nat, id: string) {
    slot < |frame.offers| && Lists(Top(frame.offers[slot], max), id)
  }

  /** In how many frames the card is among the retained candidates of the slot. */
  function FramesWith(frames: seq<DetectionResult>, slot: nat, max: nat, id: string): nat {
    if frames == [] then 0
    else (if Shows(frames[0], slot, max, id) then 1 else 0) + FramesWith(frames[1..], slot, max, id)
  }

  predicate Clean(candidates: seq<OfferCandidate>) {
    && (forall i | 0 <= i < |candidates| :: UnitInterval(candidates[i].confidence))
    && forall i, k | 0 <= i < k < |candidates| :: candidates[i].cardId != candidates[k].cardId
  }

  /** Confidences between zero and one, no card twice in a slot. */
  predicate CleanFrame(frame: DetectionResult, max: nat) {
    forall j | 0 <= j < |frame.offers| :: Clean(Top(frame.offers[j], max))
  }

  lemma OtherTally(c: OfferCandidate, id: string)
    requires c.cardId != id
    ensures TallyOne(c, id) == NO_TALLY
  {
  }

  lemma {:induction false} AbsentTally(candidates: seq<OfferCandidate>, id: string)
    requires !Lists(candidates, id)
    ensures TallyIn(candidates, id) == NO_TALLY
  {
    hide Lists, Plus, TallyOne;
    if candidates != [] {
      ListsFirst(candidates, id);
      AbsentTally(candidates[1..], id);
      OtherTally(candidates[0], id);
      PlusAssociates(NO_TALLY, NO_TALLY, NO_TALLY);
    }
  }

  lemma ListsFirst(candidates: seq<OfferCandidate>, id: string)
    requires candidates != []
    ensures Lists(candidates, id) <==> candidates[0].cardId == id || Lists(candidates[1..], id)
  {
    assert forall i | 1 <= i < |candidates| :: candidates[i] == candidates[1..][i - 1];
  }

  lemma CleanFirst(candidates: seq<OfferCandidate>)
    requires candidates != [] && Clean(candidates)
    ensures Clean(candidates[1..]) && UnitInterval(candidates[0].confidence)
    ensures !Lists(candidates[1..], candidates[0].cardId)
  {
  }

  lemma {:induction false} CleanTally(candidates: seq<OfferCandidate>, id: string)
    requires Clean(candidates)
    ensures var tally := TallyIn(candidates, id);
      && 0.0 <= tally.confidence <= tally.support as real
      && tally.support == if Lists(candidates, id) then 1 else 0
  {
    hide Clean;
    if candidates != [] {
      hide Lists;
      CleanFirst(candidates);
      ListsFirst(candidates, id);
      CleanTally(candidates[1..], id);
      if candidates[0].cardId == id {
        AbsentTally(candidates[1..], id);
      }
    }
  }

  lemma {:induction false} CleanTallies(frames: seq<DetectionResult>, slot: nat, max: nat, id: string)
    requires forall i | 0 <= i < |frames| :: CleanFrame(frames[i], max)
    ensures var tally := TallyAll(frames, slot, max, id);
      && tally.support == FramesWith(frames, slot, max, id) <= |frames|
      && 0.0 <= tally.confidence <= tally.support as real
  {
    hide TallyIn, Top, Clean, Lists;
    if frames != [] {
      CleanTallies(frames[1..], slot, max, id);
      if slot < |frames[0].offers| {
        CleanTally(Top(frames[0].offers[slot], max), id);
      }
    }
  }

  lemma {:induction false} ReadyIds(result: DetectionResult, from: nat)
    requires from <= |result.offers| && RecommendFrom(result, from).Ready?
    ensures var ids := RecommendFrom(result, from).cardIds;
      && |ids| == |result.offers| - from
      && forall j | from <= j < |result.offers| ::
           var candidates := result.offers[j].candidates;
           candidates != [] && ids[j - from] == candidates[0].cardId && candidates[0].confidence >= result.minimumConfidence
    decreases |result.offers| - from
  {
    if from < |result.offers| {
      ReadyIds(result, from + 1);
    }
  }

  /** The first of a ranking beats every other, and the second is the best of those. */
  lemma RankedLeads(standings: Standings, frames: nat, rival: string)
    requires frames > 0 && rival in standings
    ensures var ids := Ranked(standings, frames);
      && ids != []
      && (rival != ids[0] ==>
            |ids| > 1 && MeanOf(standings, rival, frames) <= MeanOf(standings, ids[1], frames))
  {
    hide StringLess;
    OrderIsTotal(standings, frames);
    SortedKeysIncreasing(standings.Keys, Order(standings, frames));
    var ids := Ranked(standings, frames);
    assert rival in ids;
    var i :| 0 <= i < |ids| && ids[i] == rival;
    if i > 1 {
      assert Order(standings, frames)(ids[1], ids[i]);
    }
  }

  lemma MulAtMost(x: real, y: real, z: real)
    requires 0.0 <= x && y <= z
    ensures x * y <= x * z
  {
  }

  lemma DivTimes(x: real, y: real)
    requires y > 0.0
    ensures (x / y) * y == x
  {
  }

  /** The kept share of the margin is no more than the lead. */
  lemma LeadCovers(config: AggregationConfig, lead: real)
    requires config.Valid() && lead >= 0.0
    ensures 0.0 <= MarginFactor(config, lead) <= 1.0
    ensures MarginFactor(config, lead) * config.minimumMargin <= lead
  {
    var margin := config.minimumMargin;
    if margin > 0.0 {
      DivTimes(lead, margin);
      MulAtMost(margin, MarginFactor(config, lead), lead / margin);
    }
  }

  /** A discounted mean that still passes the threshold comes from a high mean with a clear lead. */
  lemma DiscountPasses(config: AggregationConfig, minimum: real, mean: real, second: real)
    requires config.Valid() && UnitInterval(minimum) && UnitInterval(mean) && second <= mean
    requires mean * MarginFactor(config, mean - second) >= minimum
    ensures mean >= minimum && mean - second >= minimum * config.minimumMargin
  {
    LeadCovers(config, mean - second);
    PassesBy(minimum, mean, MarginFactor(config, mean - second), config.minimumMargin, mean - second);
  }

  lemma PassesBy(minimum: real, mean: real, factor: real, margin: real, lead: real)
    requires UnitInterval(mean) && UnitInterval(factor) && 0.0 <= margin
    requires minimum <= mean * factor && factor * margin <= lead
    ensures minimum <= mean && minimum * margin <= lead
  {
    FactorsBound(mean, factor);
    ScaleAtMost(minimum, factor, margin);
  }

  lemma FactorsBound(x: real, y: real)
    requires UnitInterval(x) && UnitInterval(y)
    ensures x * y <= x && x * y <= y
  {
    MulAtMost(x, y, 1.0);
    MulAtMost(y, x, 1.0);
  }

  lemma ScaleAtMost(x: real, y: real, z: real)
    requires x <= y && 0.0 <= z
    ensures x * z <= y * z
  {
    MulAtMost(z, x, y);
  }

  lemma MeanTimes(sum: real, frames: nat, bound: real)
    requires frames > 0
    ensures sum / frames as real >= bound <==> sum >= bound * frames as real
    ensures sum / frames as real <= bound <==> sum <= bound * frames as real
  {
  }

  /** The leader of a slot whose finished confidence passes the threshold. */
  lemma SlotIsStrong(config: AggregationConfig, minimum: real, slot: Slot, frames: nat, rival: string)
    requires config.Valid() && UnitInterval(minimum) && frames > 0 && Supported(slot)
    requires FinishSlot(config, slot, frames).candidates != []
    requires FinishSlot(config, slot, frames).candidates[0].confidence >= minimum
    requires forall id :: UnitInterval(MeanOf(StandingsOf(slot), id, frames))
    ensures var winner := FinishSlot(config, slot, frames).candidates[0].cardId;
      var standings := StandingsOf(slot);
      && winner in slot && MeanOf(standings, winner, frames) >= minimum
      && (rival in slot && rival != winner ==>
            MeanOf(standings, winner, frames) - MeanOf(standings, rival, frames) >= minimum * config.minimumMargin)
  {
    hide Ranked, MeanOf;
    var standings := StandingsOf(slot);
    var ids := Ranked(standings, frames);
    assert ids != [] && ids[0] in ids;
    var mean := MeanOf(standings, ids[0], frames);
    if |ids| > 1 {
      assert ids[1] in ids;
      SecondBehind(standings, frames);
      DiscountPasses(config, minimum, mean, MeanOf(standings, ids[1], frames));
    }
    if rival in slot {
      RankedLeads(standings, frames, rival);
    }
  }

  lemma SecondBehind(standings: Standings, frames: nat)
    requires frames > 0 && |Ranked(standings, frames)| > 1
    ensures var ids := Ranked(standings, frames); MeanOf(standings, ids[1], frames) <= MeanOf(standings, ids[0], frames)
  {
    hide StringLess;
    OrderIsTotal(standings, frames);
    SortedKeysIncreasing(standings.Keys, Order(standings, frames));
    var ids := Ranked(standings, frames);
    assert Order(standings, frames)(ids[0], ids[1]);
  }

  lemma CleanMeans(config: AggregationConfig, count: nat, frames: seq<DetectionResult>, j: nat, id: string)
    requires j < count && frames != [] && ObserveAll(config, Nothing(count), frames).Some?
    requires forall i | 0 <= i < |frames| :: CleanFrame(frames[i], config.maxCandidates)
    ensures var slot := ObserveAll(config, Nothing(count), frames).value.slots[j];
      var tally := TallyAll(frames, j, config.maxCandidates, id);
      && UnitInterval(MeanOf(StandingsOf(slot), id, |frames|))
      && MeanOf(StandingsOf(slot), id, |frames|) == tally.confidence / |frames| as real
      && tally.confidence <= FramesWith(frames, j, config.maxCandidates, id) as real
  {
    hide ObserveAll, TallyAll, CleanFrame, FramesWith;
    AccumulatedTally(config, count, frames, j, id);
    CleanTallies(frames, j, config.maxCandidates, id);
    var confidence := TallyAll(frames, j, config.maxCandidates, id).confidence;
    MeanTimes(confidence, |frames|, 0.0);
    MeanTimes(confidence, |frames|, 1.0);
  }

  /** A Ready recommendation over clean frames: every recommended card was seen in at least the threshold share of
      the frames, and leads every other card of its slot by the discounted margin in mean confidence. */
  lemma ReadyIsStrong(
    config: AggregationConfig, minimum: real, count: nat, frames: seq<DetectionResult>, j: nat, rival: string)
    requires config.Valid() && UnitInterval(minimum) && frames != [] && j < count
    requires forall i | 0 <= i < |frames| :: CleanFrame(frames[i], config.maxCandidates)
    requires ObserveAll(config, Nothing(count), frames).Some?
    ensures var s := ObserveAll(config, Nothing(count), frames).value;
      && s.frames == |frames| && AllSupported(s)
      && var outcome := RecommendOver(config, minimum, s);
      outcome.Ready? ==>
        && |outcome.cardIds| == count && |frames| >= config.minimumFrames
        && var winner := outcome.cardIds[j];
        && FramesWith(frames, j, config.maxCandidates, winner) as real >= minimum * |frames| as real
        && (rival != winner && FramesWith(frames, j, config.maxCandidates, rival) > 0 ==>
              TallyAll(frames, j, config.maxCandidates, winner).confidence / |frames| as real
              - TallyAll(frames, j, config.maxCandidates, rival).confidence / |frames| as real
              >= minimum * config.minimumMargin)
  {
    hide ObserveAll, RecommendFrom, TallyAll, FramesWith, CleanFrame, FinishSlot, MeanOf;
    var s := ObserveAll(config, Nothing(count), frames).value;
    AccumulatedTally(config, count, frames, j, rival);
    if RecommendOver(config, minimum, s).Ready? {
      var result := Finish(config, minimum, s);
      ReadyIds(result, 0);
      assert result.offers[j] == FinishSlot(config, s.slots[j], |frames|) && result.offers[j].candidates != [];
      forall id ensures UnitInterval(MeanOf(StandingsOf(s.slots[j]), id, |frames|)) {
        CleanMeans(config, count, frames, j, id);
      }
      SlotIsStrong(config, minimum, s.slots[j], |frames|, rival);
      var winner := FinishSlot(config, s.slots[j], |frames|).candidates[0].cardId;
      CleanMeans(config, count, frames, j, winner);
      CleanMeans(config, count, frames, j, rival);
      CleanTallies(frames, j, config.maxCandidates, rival);
      MeanTimes(TallyAll(frames, j, config.maxCandidates, winner).confidence, |frames|, minimum);
    }
  }

  // When a share of the frames is guaranteed.

  /** No card of a slot gathers more than `bound` confidence in the frame. */
  ghost predicate FrameWithin(frame: DetectionResult, max: nat, bound: real) {
    forall j: nat, id | Shows(frame, j, max, id) :: TallyFrame(frame, j, max, id).confidence <= bound
  }

  ghost predicate Within(frames: seq<DetectionResult>, max: nat, bound: real) {
    forall i | 0 <= i < |frames| :: FrameWithin(frames[i], max, bound)
  }

  /** Frames that are all observed and lead to a Ready recommendation of `cardIds`. */
  ghost predicate Recommends(
    config: AggregationConfig, minimum: real, count: nat, frames: seq<DetectionResult>, cardIds: seq<string>)
  {
    && frames != [] && ObserveAll(config, Nothing(count), frames).Some?
    && var s := ObserveAll(config, Nothing(count), frames).value;
    s.frames > 0 && AllSupported(s) && RecommendOver(config, minimum, s) == Ready(cardIds)
  }

  ghost predicate HasShare(
    config: AggregationConfig, minimum: real, bound: real, count: nat, frames: seq<DetectionResult>,
    cardIds: seq<string>, j: nat)
  {
    Recommends(config, minimum, count, frames, cardIds) && Within(frames, config.maxCandidates, bound) && j < count ==>
      j < |cardIds| && FramesWith(frames, j, config.maxCandidates, cardIds[j]) as real >= minimum * |frames| as real
  }

  /** The promise of the averaging: every recommended card was retained in the threshold share of the frames. */
  ghost predicate KeepsShare(config: AggregationConfig, minimum: real, bound: real) {
    forall count: nat, frames, cardIds, j: nat :: HasShare(config, minimum, bound, count, frames, cardIds, j)
  }

  /** Among `n` frames, `k` that show a card are fewer than the share and may still carry the confidence of it. */
  predicate TooFewSuffice(config: AggregationConfig, minimum: real, bound: real, n: nat, k: nat) {
    && 0 < n <= U32_MAX && config.minimumFrames <= n
    && k as real < minimum * n as real <= k as real * bound
  }

  /** A card's confidence is bounded by the frames that show it. */
  lemma {:induction false} BoundedTallies(frames: seq<DetectionResult>, slot: nat, max: nat, bound: real, id: string)
    requires Within(frames, max, bound)
    ensures TallyAll(frames, slot, max, id).confidence <= FramesWith(frames, slot, max, id) as real * bound
  {
    hide Shows, TallyFrame, FrameWithin;
    if frames != [] {
      var rest := frames[1..];
      BoundedTallies(rest, slot, max, bound, id);
      assert FrameWithin(frames[0], max, bound);
      FrameBound(frames[0], slot, max, bound, id);
      Distribute(FramesWith(rest, slot, max, id) as real, bound);
    }
  }

  lemma FrameBound(frame: DetectionResult, slot: nat, max: nat, bound: real, id: string)
    requires FrameWithin(frame, max, bound)
    ensures TallyFrame(frame, slot, max, id).confidence <= if Shows(frame, slot, max, id) then bound else 0.0
  {
    hide TallyIn, Top, Lists;
    if !Shows(frame, slot, max, id) && slot < |frame.offers| {
      AbsentTally(Top(frame.offers[slot], max), id);
    }
  }

  lemma Distribute(x: real, y: real)
    ensures (x + 1.0) * y == x * y + y
  {
  }

  /** The leader's mean, discounted or not, passes only if the mean does. */
  lemma LeaderMean(config: AggregationConfig, minimum: real, slot: Slot, frames: nat)
    requires config.Valid() && 0.0 < minimum && frames > 0 && Supported(slot)
    requires FinishSlot(config, slot, frames).candidates != []
    requires FinishSlot(config, slot, frames).candidates[0].confidence >= minimum
    ensures MeanOf(StandingsOf(slot), FinishSlot(config, slot, frames).candidates[0].cardId, frames) >= minimum
  {
    hide Ranked, MeanOf;
    var standings := StandingsOf(slot);
    var ids := Ranked(standings, frames);
    assert ids != [];
    if |ids| > 1 {
      SecondBehind(standings, frames);
      var mean, second := MeanOf(standings, ids[0], frames), MeanOf(standings, ids[1], frames);
      LeadCovers(config, mean - second);
      DiscountLowers(mean, MarginFactor(config, mean - second), minimum);
    }
  }

  lemma DiscountLowers(mean: real, factor: real, minimum: real)
    requires UnitInterval(factor) && 0.0 < minimum <= mean * factor
    ensures minimum <= mean
  {
    assert mean * factor == factor * mean;
    if mean > 0.0 {
      MulAtMost(mean, factor, 1.0);
    } else {
      MulAtMost(factor, mean, 0.0);
    }
  }

  /** Every recommendation that misses the share shows how many frames were too few. */
  lemma MissedShare(
    config: AggregationConfig, minimum: real, bound: real, count: nat, frames: seq<DetectionResult>,
    cardIds: seq<string>, j: nat)
    requires config.Valid() && UnitInterval(minimum) && j < count
    requires Recommends(config, minimum, count, frames, cardIds) && Within(frames, config.maxCandidates, bound)
    ensures j < |cardIds| && |frames| <= U32_MAX
    ensures var k := FramesWith(frames, j, config.maxCandidates, cardIds[j]);
      k as real >= minimum * |frames| as real || TooFewSuffice(config, minimum, bound, |frames|, k)
  {
    hide ObserveAll, RecommendFrom, TallyAll, FramesWith, FinishSlot, MeanOf, Within, Shows;
    var s := ObserveAll(config, Nothing(count), frames).value;
    FramesCounted(config, count, frames);
    FramesLimited(config, Nothing(count), frames);
    var result := Finish(config, minimum, s);
    ReadyIds(result, 0);
    assert result.offers[j] == FinishSlot(config, s.slots[j], |frames|) && result.offers[j].candidates != [];
    var k := FramesWith(frames, j, config.maxCandidates, cardIds[j]);
    if minimum > 0.0 {
      LeaderMean(config, minimum, s.slots[j], |frames|);
      AccumulatedTally(config, count, frames, j, cardIds[j]);
      MeanIsTally(s.slots[j], cardIds[j], |frames|);
      MeanTimes(Entry(s.slots[j], cardIds[j]).confidence, |frames|, minimum);
      BoundedTallies(frames, j, config.maxCandidates, bound, cardIds[j]);
    }
  }

  lemma MeanIsTally(slot: Slot, id: string, frames: nat)
    requires frames > 0
    ensures MeanOf(StandingsOf(slot), id, frames) == Entry(slot, id).confidence / frames as real
  {
  }

  lemma {:induction false} FramesLimited(config: AggregationConfig, s: Accumulated, frames: seq<DetectionResult>)
    requires s.frames <= U32_MAX && ObserveAll(config, s, frames).Some?
    ensures s.frames + |frames| <= U32_MAX
    decreases frames
  {
    hide AddOffers;
    if frames != [] {
      FramesLimited(config, Observe(config, s, frames[0]).0, frames[1..]);
    }
  }

  // Frames that are too few and suffice.

  /** A frame that shows one card. */
  function Showing(confidence: real): DetectionResult {
    DetectionResult(1, [DetectedOffer([OfferCandidate("A", confidence, None)], ScreenCapture)], 0.0)
  }

  const EMPTY_FRAME := DetectionResult(1, [DetectedOffer([], ScreenCapture)], 0.0)

  function Repeated(frame: DetectionResult, n: nat): seq<DetectionResult> {
    if n == 0 then [] else [frame] + Repeated(frame, n - 1)
  }

  lemma RealId()
    ensures Trim("A") == "A"
  {
    assert TrimStart("A") == "A" && TrimEnd("A") == "A";
  }

  /** What `k` shown frames leave in the only slot. */
  function Gathered(k: nat, confidence: real): Accumulated {
    Accumulated(k, [if k == 0 then map[]
                    else map["A" := CandidateEvidence(k as real * confidence, k as real, k, ScreenCapture)]])
  }

  lemma GatherOnce(k: nat, confidence: real)
    requires k < U32_MAX
    ensures var c := OfferCandidate("A", confidence, None);
      AddCandidate(Gathered(k, confidence).slots[0], c, ScreenCapture) == (Gathered(k + 1, confidence).slots[0], None)
  {
    RealId();
    var c := OfferCandidate("A", confidence, None);
    var before, after := Gathered(k, confidence).slots[0], Gathered(k + 1, confidence).slots[0];
    Distribute(k as real, confidence);
    assert EvidenceOf(before, "A", ScreenCapture)
        == CandidateEvidence(k as real * confidence, k as real, k, ScreenCapture);
    assert (k + 1) as real == k as real + 1.0;
    assert after["A"] == CandidateEvidence(k as real * confidence + confidence, k as real + 1.0, k + 1, ScreenCapture);
    var added := AddCandidate(before, c, ScreenCapture);
    assert added.1 == None;
    assert added.0 == before["A" := after["A"]];
    assert before["A" := after["A"]] == after;
  }

  lemma ShowOnce(config: AggregationConfig, k: nat, confidence: real)
    requires config.maxCandidates > 0 && k < U32_MAX
    ensures Observe(config, Gathered(k, confidence), Showing(confidence)) == (Gathered(k + 1, confidence), None)
  {
    hide AddCandidate;
    var c := OfferCandidate("A", confidence, None);
    var before, after := Gathered(k, confidence).slots[0], Gathered(k + 1, confidence).slots[0];
    GatherOnce(k, confidence);
    assert [c][1..] == [] && Top(Showing(confidence).offers[0], config.maxCandidates) == [c];
    assert AddCandidates(before, [c], ScreenCapture) == (after, None);
    assert [before][0 := after] == [after];
    assert AddOffers([after], Showing(confidence).offers, config.maxCandidates, 1) == ([after], None);
  }

  lemma {:induction false} ShowMany(config: AggregationConfig, k: nat, confidence: real, n: nat)
    requires config.maxCandidates > 0 && k + n <= U32_MAX
    ensures ObserveAll(config, Gathered(k, confidence), Repeated(Showing(confidence), n)) == Some(Gathered(k + n, confidence))
    decreases n
  {
    hide Observe, Gathered;
    if n > 0 {
      ShowOnce(config, k, confidence);
      ShowMany(config, k + 1, confidence, n - 1);
      assert Repeated(Showing(confidence), n)[1..] == Repeated(Showing(confidence), n - 1);
    }
  }

  lemma {:induction false} ShowNothing(config: AggregationConfig, s: Accumulated, n: nat)
    requires |s.slots| == 1 && s.frames + n <= U32_MAX
    ensures ObserveAll(config, s, Repeated(EMPTY_FRAME, n)) == Some(s.(frames := s.frames + n))
    decreases n
  {
    if n > 0 {
      var next := s.(frames := s.frames + 1);
      assert s.slots[0 := s.slots[0]] == s.slots;
      assert AddOffers(s.slots, EMPTY_FRAME.offers, config.maxCandidates, 1) == (s.slots, None);
      assert Observe(config, s, EMPTY_FRAME) == (next, None);
      ShowNothing(config, next, n - 1);
      assert Repeated(EMPTY_FRAME, n)[1..] == Repeated(EMPTY_FRAME, n - 1);
    }
  }

  lemma {:induction false} ObserveConcat(
    config: AggregationConfig, s: Accumulated, a: seq<DetectionResult>, b: seq<DetectionResult>)
    requires ObserveAll(config, s, a).Some?
    ensures ObserveAll(config, s, a + b) == ObserveAll(config, ObserveAll(config, s, a).value, b)
    decreases a
  {
    hide Observe;
    if a == [] {
      assert a + b == b;
    } else {
      assert (a + b)[0] == a[0] && (a + b)[1..] == a[1..] + b;
      ObserveConcat(config, Observe(config, s, a[0]).0, a[1..], b);
    }
  }

  lemma {:induction false} RepeatedFacts(frame: DetectionResult, n: nat, slot: nat, max: nat, id: string)
    ensures |Repeated(frame, n)| == n && forall i | 0 <= i < n :: Repeated(frame, n)[i] == frame
    ensures FramesWith(Repeated(frame, n), slot, max, id) == if Shows(frame, slot, max, id) then n else 0
    decreases n
  {
    hide Shows;
    if n > 0 {
      RepeatedFacts(frame, n - 1, slot, max, id);
      assert Repeated(frame, n)[1..] == Repeated(frame, n - 1);
    }
  }

  lemma {:induction false} FramesWithConcat(
    a: seq<DetectionResult>, b: seq<DetectionResult>, slot: nat, max: nat, id: string)
    ensures FramesWith(a + b, slot, max, id) == FramesWith(a, slot, max, id) + FramesWith(b, slot, max, id)
  {
    hide Shows;
    if a == [] {
      assert a + b == b;
    } else {
      assert (a + b)[0] == a[0] && (a + b)[1..] == a[1..] + b;
      FramesWithConcat(a[1..], b, slot, max, id);
    }
  }

  lemma ShownFrame(max: nat, confidence: real, id: string)
    requires max > 0
    ensures Shows(Showing(confidence), 0, max, id) <==> id == "A"
    ensures TallyFrame(Showing(confidence), 0, max, "A") == Tally(confidence, 1)
    ensures !Shows(EMPTY_FRAME, 0, max, id)
  {
    var candidates := Top(Showing(confidence).offers[0], max);
    assert candidates == [OfferCandidate("A", confidence, None)] && candidates[0].cardId == "A";
    assert candidates[1..] == [] && TallyIn([], "A") == NO_TALLY;
    assert TallyIn(candidates, "A") == Plus(TallyOne(candidates[0], "A"), NO_TALLY);
  }

  lemma FewerFrames(config: AggregationConfig, minimum: real, bound: real, n: nat, k: nat)
    requires UnitInterval(minimum) && TooFewSuffice(config, minimum, bound, n, k)
    ensures 0 < k < n
  {
    var needed := minimum * n as real;
    assert 0.0 <= needed <= n as real by {
      MulAtMost(n as real, minimum, 1.0);
      MulAtMost(n as real, 0.0, minimum);
    }
    assert k == 0 ==> k as real * bound == 0.0;
  }

  /** The frames themselves: `k` that show a card at the bound, then empty ones. */
  lemma FewFramesRecommend(config: AggregationConfig, minimum: real, bound: real, n: nat, k: nat)
    requires config.Valid() && UnitInterval(minimum) && TooFewSuffice(config, minimum, bound, n, k)
    ensures k <= n
    ensures var frames := Repeated(Showing(bound), k) + Repeated(EMPTY_FRAME, n - k);
      && |frames| == n && Within(frames, config.maxCandidates, bound)
      && Recommends(config, minimum, 1, frames, ["A"])
      && FramesWith(frames, 0, config.maxCandidates, "A") == k
  {
    hide ObserveAll, RecommendFrom, FramesWith, Repeated, Showing;
    var max := config.maxCandidates;
    FewerFrames(config, minimum, bound, n, k);
    var shown, empty := Repeated(Showing(bound), k), Repeated(EMPTY_FRAME, n - k);
    var s := Accumulated(n, Gathered(k, bound).slots);
    assert Nothing(1) == Gathered(0, bound);
    ShowMany(config, 0, bound, k);
    ShowNothing(config, Gathered(k, bound), n - k);
    ObserveConcat(config, Nothing(1), shown, empty);
    RepeatedFacts(Showing(bound), k, 0, max, "A");
    RepeatedFacts(EMPTY_FRAME, n - k, 0, max, "A");
    ShownFrame(max, bound, "A");
    FramesWithConcat(shown, empty, 0, max, "A");
    RecommendsLeader(config, minimum, s, k as real * bound);
    WithinBound(max, bound, k, n - k);
  }

  lemma RecommendsLeader(config: AggregationConfig, minimum: real, s: Accumulated, sum: real)
    requires config.Valid() && UnitInterval(minimum) && |s.slots| == 1 && Supported(s.slots[0])
    requires s.frames > 0 && s.frames >= config.minimumFrames && minimum * s.frames as real <= sum
    requires s.slots[0].Keys == {"A"} && s.slots[0]["A"].confidenceSum == sum
    ensures RecommendOver(config, minimum, s) == Ready(["A"])
  {
    hide FinishSlot;
    RealId();
    SoleCandidate(config, s.slots[0], s.frames);
    MeanTimes(sum, s.frames, minimum);
    var result := Finish(config, minimum, s);
    assert result.offers == [FinishSlot(config, s.slots[0], s.frames)];
    assert RecommendFrom(result, 1) == Ready([]);
  }

  lemma WithinBound(max: nat, bound: real, k: nat, rest: nat)
    requires max > 0
    ensures Within(Repeated(Showing(bound), k) + Repeated(EMPTY_FRAME, rest), max, bound)
  {
    hide TallyFrame, Shows, Repeated;
    var frames := Repeated(Showing(bound), k) + Repeated(EMPTY_FRAME, rest);
    RepeatedFacts(Showing(bound), k, 0, max, "A");
    RepeatedFacts(EMPTY_FRAME, rest, 0, max, "A");
    FramesWithinBound(max, bound);
    forall i | 0 <= i < |frames| ensures FrameWithin(frames[i], max, bound) {
      assert frames[i] == if i < k then Showing(bound) else EMPTY_FRAME;
    }
  }

  lemma FramesWithinBound(max: nat, bound: real)
    requires max > 0
    ensures FrameWithin(Showing(bound), max, bound) && FrameWithin(EMPTY_FRAME, max, bound)
  {
    hide TallyFrame;
    forall id: string ensures (Shows(Showing(bound), 0, max, id) ==> id == "A") && !Shows(EMPTY_FRAME, 0, max, id) {
      ShownFrame(max, bound, id);
    }
    ShownFrame(max, bound, "A");
  }

  /** For one threshold: the share is kept if and only if no admissible number of frames lets too few suffice. */
  lemma ShareKeptIff(config: AggregationConfig, minimum: real, bound: real)
    requires config.Valid() && UnitInterval(minimum)
    ensures KeepsShare(config, minimum, bound) <==> forall n: nat, k: nat :: !TooFewSuffice(config, minimum, bound, n, k)
  {
    hide HasShare, TooFewSuffice;
    if forall n: nat, k: nat :: !TooFewSuffice(config, minimum, bound, n, k) {
      forall count: nat, frames, cardIds, j: nat ensures HasShare(config, minimum, bound, count, frames, cardIds, j) {
        NoneMissesShare(config, minimum, bound, count, frames, cardIds, j);
      }
    } else {
      var n: nat, k: nat :| TooFewSuffice(config, minimum, bound, n, k);
      FewFramesMissShare(config, minimum, bound, n, k);
    }
  }

  lemma NoneMissesShare(
    config: AggregationConfig, minimum: real, bound: real, count: nat, frames: seq<DetectionResult>,
    cardIds: seq<string>, j: nat)
    requires config.Valid() && UnitInterval(minimum)
    requires forall n: nat, k: nat :: !TooFewSuffice(config, minimum, bound, n, k)
    ensures HasShare(config, minimum, bound, count, frames, cardIds, j)
  {
    hide Recommends, Within, FramesWith, TooFewSuffice;
    if Recommends(config, minimum, count, frames, cardIds) && Within(frames, config.maxCandidates, bound) && j < count {
      MissedShare(config, minimum, bound, count, frames, cardIds, j);
    }
  }

  lemma FewFramesMissShare(config: AggregationConfig, minimum: real, bound: real, n: nat, k: nat)
    requires config.Valid() && UnitInterval(minimum) && TooFewSuffice(config, minimum, bound, n, k)
    ensures !KeepsShare(config, minimum, bound)
  {
    hide Recommends, Within, FramesWith;
    FewFramesRecommend(config, minimum, bound, n, k);
    var frames := Repeated(Showing(bound), k) + Repeated(EMPTY_FRAME, n - k);
    assert FramesWith(frames, 0, config.maxCandidates, ["A"][0]) == k;
    assert !HasShare(config, minimum, bound, 1, frames, ["A"], 0);
  }

  lemma OneIsEnough(config: AggregationConfig, minimum: real, bound: real, n: nat, k: nat)
    requires bound <= 1.0
    ensures !TooFewSuffice(config, minimum, bound, n, k)
  {
    MulAtMost(k as real, bound, 1.0);
  }

  lemma AboveOneFails(config: AggregationConfig, bound: real) returns (minimum: real)
    requires config.Valid() && config.minimumFrames <= U32_MAX && bound > 1.0
    ensures UnitInterval(minimum) && TooFewSuffice(config, minimum, bound, Max(config.minimumFrames, 2), 1)
  {
    var n := Max(config.minimumFrames, 2);
    var share := if bound < n as real then bound else n as real;
    minimum := share / n as real;
    DivTimes(share, n as real);
    MeanTimes(share, n, 1.0);
    MeanTimes(share, n, 0.0);
  }

  /** For every threshold: the share is kept if and only if no card can gather more than one in a frame. */
  lemma ShareAlwaysKeptIff(config: AggregationConfig, bound: real)
    requires config.Valid() && config.minimumFrames <= U32_MAX
    ensures (forall minimum | UnitInterval(minimum) :: KeepsShare(config, minimum, bound)) <==> bound <= 1.0
  {
    hide KeepsShare, TooFewSuffice;
    if bound <= 1.0 {
      forall minimum | UnitInterval(minimum) ensures KeepsShare(config, minimum, bound) {
        forall n: nat, k: nat ensures !TooFewSuffice(config, minimum, bound, n, k) {
          OneIsEnough(config, minimum, bound, n, k);
        }
        ShareKeptIff(config, minimum, bound);
      }
    } else {
      var minimum := AboveOneFails(config, bound);
      ShareKeptIff(config, minimum, bound);
    }
  }

  // The order of the frames.

  lemma {:induction false} TallySplit(a: seq<DetectionResult>, b: seq<DetectionResult>, slot: nat, max: nat, id: string)
    ensures TallyAll(a + b, slot, max, id) == Plus(TallyAll(a, slot, max, id), TallyAll(b, slot, max, id))
  {
    hide TallyFrame;
    if a == [] {
      assert a + b == b;
    } else {
      assert (a + b)[0] == a[0] && (a + b)[1..] == a[1..] + b;
      TallySplit(a[1..], b, slot, max, id);
    }
  }

  /** The evidence for a card does not depend on the order of the frames. */
  lemma {:induction false} TallyPermuted(
    a: seq<DetectionResult>, b: seq<DetectionResult>, slot: nat, max: nat, id: string)
    requires multiset(a) == multiset(b)
    ensures TallyAll(a, slot, max, id) == TallyAll(b, slot, max, id) && |a| == |b|
    decreases a
  {
    hide TallyFrame, TallyAll;
    SameLength(a, b);
    if a != [] {
      var i := FirstIn(a, b);
      TallyPermuted(a[1..], b[..i] + b[i + 1..], slot, max, id);
      TallyRemove(b, i, slot, max, id);
      TallyFirst(a, slot, max, id);
    }
  }

  lemma SameLength(a: seq<DetectionResult>, b: seq<DetectionResult>)
    requires multiset(a) == multiset(b)
    ensures |a| == |b| && (a == [] ==> b == [])
  {
    assert |a| == |multiset(a)| && |b| == |multiset(b)|;
  }

  lemma TallyFirst(frames: seq<DetectionResult>, slot: nat, max: nat, id: string)
    requires frames != []
    ensures TallyAll(frames, slot, max, id)
         == Plus(TallyFrame(frames[0], slot, max, id), TallyAll(frames[1..], slot, max, id))
  {
  }

  /** Where the first frame of one order stands in the other. */
  lemma FirstIn<T>(a: seq<T>, b: seq<T>) returns (i: nat)
    requires a != [] && multiset(a) == multiset(b)
    ensures i < |b| && b[i] == a[0] && multiset(a[1..]) == multiset(b[..i] + b[i + 1..])
  {
    assert a[0] in multiset(b);
    i :| 0 <= i < |b| && b[i] == a[0];
    RemoveAt(a, 0);
    RemoveAt(b, i);
    assert a[..0] + a[1..] == a[1..];
  }

  lemma RemoveAt<T>(s: seq<T>, i: nat)
    requires i < |s|
    ensures multiset(s[..i] + s[i + 1..]) == multiset(s) - multiset{s[i]}
  {
    assert s == s[..i] + ([s[i]] + s[i + 1..]);
  }

  lemma TallyRemove(b: seq<DetectionResult>, i: nat, slot: nat, max: nat, id: string)
    requires i < |b|
    ensures TallyAll(b, slot, max, id) == Plus(TallyFrame(b[i], slot, max, id), TallyAll(b[..i] + b[i + 1..], slot, max, id))
  {
    hide TallyFrame;
    assert b == b[..i] + ([b[i]] + b[i + 1..]);
    TallySplit(b[..i], [b[i]] + b[i + 1..], slot, max, id);
    TallySplit(b[..i], b[i + 1..], slot, max, id);
    assert ([b[i]] + b[i + 1..])[1..] == b[i + 1..];
  }

  lemma SameStandings(config: AggregationConfig, a: Slot, b: Slot, frames: nat)
    requires frames > 0 && Supported(a) && Supported(b) && StandingsOf(a) == StandingsOf(b) && config.maxCandidates > 0
    ensures var x, y := FinishSlot(config, a, frames).candidates, FinishSlot(config, b, frames).candidates;
      && (x == [] <==> y == [])
      && (x != [] ==> x[0].cardId == y[0].cardId && x[0].confidence == y[0].confidence)
  {
    hide Ranked, MeanOf, MarginFactor;
  }

  lemma {:induction false} SameRecommendations(a: DetectionResult, b: DetectionResult, from: nat)
    requires |a.offers| == |b.offers| && from <= |a.offers| && a.minimumConfidence == b.minimumConfidence
    requires forall j | 0 <= j < |a.offers| ::
      var x, y := a.offers[j].candidates, b.offers[j].candidates;
      && (x == [] <==> y == [])
      && (x != [] ==> x[0].cardId == y[0].cardId && x[0].confidence == y[0].confidence)
    ensures RecommendFrom(a, from) == RecommendFrom(b, from)
    decreases |a.offers| - from
  {
    if from < |a.offers| {
      SameRecommendations(a, b, from + 1);
    }
  }

  // Which frames are observed without error, in any order.

  /** Evidence that the accumulator takes. */
  predicate GoodCandidate(c: OfferCandidate) {
    Trim(c.cardId) != "" && (c.distance.Some? ==> UnitInterval(c.distance.value))
  }

  predicate GoodCandidates(candidates: seq<OfferCandidate>) {
    forall k | 0 <= k < |candidates| :: GoodCandidate(candidates[k])
  }

  /** A frame of the expected layout whose retained candidates are good. */
  predicate GoodFrame(frame: DetectionResult, count: nat, max: nat) {
    && frame.expectedOfferCount == count && |frame.offers| == count
    && forall j | 0 <= j < count :: GoodCandidates(Top(frame.offers[j], max))
  }

  /** Every listed card has support, and no counter is over its limit. */
  predicate Counted(slot: Slot) {
    Supported(slot) && forall id | id in slot :: slot[id].support <= U32_MAX
  }

  ghost predicate AllCounted(slots: seq<Slot>) {
    forall j | 0 <= j < |slots| :: Counted(slots[j])
  }

  /** The counters of a slot have room for these candidates. */
  ghost predicate HasRoom(slot: Slot, candidates: seq<OfferCandidate>) {
    forall id :: Entry(slot, id).support + TallyIn(candidates, id).support <= U32_MAX
  }

  lemma AddCandidateIff(slot: Slot, c: OfferCandidate, source: OfferSource)
    requires Counted(slot)
    ensures var added := AddCandidate(slot, c, source);
      && (added.1.None? <==> GoodCandidate(c) && Entry(slot, c.cardId).support < U32_MAX)
      && (added.1.None? ==> Counted(added.0))
  {
    hide Trim;
  }

  lemma RoomCons(slot: Slot, c: OfferCandidate, rest: seq<OfferCandidate>, source: OfferSource)
    requires Counted(slot)
    ensures HasRoom(slot, [c] + rest) ==> Entry(slot, c.cardId).support < U32_MAX
    ensures AddCandidate(slot, c, source).1.None? ==>
      (HasRoom(slot, [c] + rest) <==> HasRoom(AddCandidate(slot, c, source).0, rest))
  {
    hide AddCandidate, Entry, Counted;
    var all := [c] + rest;
    assert all[1..] == rest;
    assert TallyIn(all, c.cardId).support >= 1;
    if AddCandidate(slot, c, source).1.None? {
      SupportedOf(slot);
      forall id ensures
        Entry(AddCandidate(slot, c, source).0, id).support + TallyIn(rest, id).support
        == Entry(slot, id).support + TallyIn(all, id).support
      {
        AddCandidateTally(slot, c, source, id);
      }
    }
  }

  lemma SupportedOf(slot: Slot)
    requires Counted(slot)
    ensures Supported(slot)
  {
  }

  /** Candidates are taken if and only if they are good and the counters have room. */
  lemma {:induction false} AddCandidatesIff(slot: Slot, candidates: seq<OfferCandidate>, source: OfferSource)
    requires Counted(slot)
    ensures var added := AddCandidates(slot, candidates, source);
      && (added.1.None? <==> GoodCandidates(candidates) && HasRoom(slot, candidates))
      && (added.1.None? ==> Counted(added.0))
    decreases candidates
  {
    hide AddCandidate, GoodCandidate, Counted, HasRoom;
    if candidates == [] {
      RoomForNothing(slot);
    } else {
      var c, rest := candidates[0], candidates[1..];
      assert candidates == [c] + rest;
      AddCandidateIff(slot, c, source);
      RoomCons(slot, c, rest, source);
      if AddCandidate(slot, c, source).1.None? {
        AddCandidatesIff(AddCandidate(slot, c, source).0, rest, source);
      }
      assert GoodCandidates(candidates) <==> GoodCandidate(c) && GoodCandidates(rest) by {
        assert forall k | 1 <= k < |candidates| :: candidates[k] == rest[k - 1];
      }
    }
  }

  lemma RoomForNothing(slot: Slot)
    requires Counted(slot)
    ensures HasRoom(slot, [])
  {
  }

  lemma {:induction false} AddOffersIff(slots: seq<Slot>, offers: seq<DetectedOffer>, max: nat, from: nat)
    requires |slots| == |offers| && from <= |slots| && AllCounted(slots)
    ensures var added := AddOffers(slots, offers, max, from);
      && (added.1.None? <==>
            forall j | from <= j < |slots| :: GoodCandidates(Top(offers[j], max)) && HasRoom(slots[j], Top(offers[j], max)))
      && (added.1.None? ==> AllCounted(added.0))
    decreases |slots| - from
  {
    hide AddCandidates, GoodCandidates, HasRoom, Counted, Top;
    if from < |slots| {
      AddCandidatesIff(slots[from], Top(offers[from], max), offers[from].source);
      var added := AddCandidates(slots[from], Top(offers[from], max), offers[from].source);
      if added.1.None? {
        AddOffersIff(slots[from := added.0], offers, max, from + 1);
      }
    }
  }

  /** No counter of any slot would overflow. */
  ghost predicate AllHaveRoom(slots: seq<Slot>, frames: seq<DetectionResult>, max: nat) {
    forall j, id | 0 <= j < |slots| :: Entry(slots[j], id).support + TallyAll(frames, j, max, id).support <= U32_MAX
  }

  lemma ObserveIff(config: AggregationConfig, s: Accumulated, frame: DetectionResult)
    requires AllCounted(s.slots)
    ensures var next := Observe(config, s, frame);
      && (next.1.None? <==>
            && s.frames != U32_MAX && GoodFrame(frame, |s.slots|, config.maxCandidates)
            && forall j | 0 <= j < |s.slots| :: HasRoom(s.slots[j], Top(frame.offers[j], config.maxCandidates)))
      && (next.1.None? ==> AllCounted(next.0.slots))
  {
    hide GoodCandidates, HasRoom, Counted, Top, AddOffers;
    if |frame.offers| == |s.slots| {
      AddOffersIff(s.slots, frame.offers, config.maxCandidates, 0);
    }
  }

  /** An accepted frame takes from the room exactly what it adds. */
  lemma RoomFirst(config: AggregationConfig, s: Accumulated, frame: DetectionResult, rest: seq<DetectionResult>)
    requires AllCounted(s.slots) && Observe(config, s, frame).1.None?
    ensures AllHaveRoom(s.slots, [frame] + rest, config.maxCandidates)
       <==> AllHaveRoom(Observe(config, s, frame).0.slots, rest, config.maxCandidates)
  {
    hide AddOffers, TallyIn, Top, Entry, Counted, Supported;
    var max, all, after := config.maxCandidates, [frame] + rest, Observe(config, s, frame).0.slots;
    assert all[1..] == rest;
    forall k | 0 <= k < |s.slots| ensures Supported(s.slots[k]) {
      SupportedOf(s.slots[k]);
    }
    forall j, id | 0 <= j < |s.slots|
      ensures Entry(after[j], id).support + TallyAll(rest, j, max, id).support
           == Entry(s.slots[j], id).support + TallyAll(all, j, max, id).support
    {
      AddOffersTally(s.slots, frame.offers, max, 0, j, id);
    }
  }

  /** Room for all frames is room for the first. */
  lemma RoomForFirst(slots: seq<Slot>, frame: DetectionResult, rest: seq<DetectionResult>, max: nat)
    requires AllHaveRoom(slots, [frame] + rest, max) && |frame.offers| == |slots|
    ensures forall j | 0 <= j < |slots| :: HasRoom(slots[j], Top(frame.offers[j], max))
  {
    hide Entry, TallyIn, Top;
    assert ([frame] + rest)[1..] == rest;
    forall j, id | 0 <= j < |slots|
      ensures Entry(slots[j], id).support + TallyIn(Top(frame.offers[j], max), id).support <= U32_MAX
    {
      assert TallyAll([frame] + rest, j, max, id) == Plus(TallyFrame(frame, j, max, id), TallyAll(rest, j, max, id));
    }
  }

  lemma RoomForNone(slots: seq<Slot>, max: nat)
    requires AllCounted(slots)
    ensures AllHaveRoom(slots, [], max)
  {
  }

  ghost predicate AllGood(frames: seq<DetectionResult>, count: nat, max: nat) {
    forall i | 0 <= i < |frames| :: GoodFrame(frames[i], count, max)
  }

  /** Frames are observed without error if and only if each is good and neither the frame counter nor a card's support
      overflows: a condition that no order changes. */
  lemma {:induction false} ObservedIff(config: AggregationConfig, s: Accumulated, frames: seq<DetectionResult>)
    requires AllCounted(s.slots) && s.frames <= U32_MAX
    ensures ObserveAll(config, s, frames).Some? <==>
      && s.frames + |frames| <= U32_MAX && AllGood(frames, |s.slots|, config.maxCandidates)
      && AllHaveRoom(s.slots, frames, config.maxCandidates)
    decreases frames
  {
    hide Observe, GoodFrame, AllCounted, HasRoom, AllHaveRoom;
    var max := config.maxCandidates;
    if frames == [] {
      RoomForNone(s.slots, max);
    } else {
      var frame, rest := frames[0], frames[1..];
      assert frames == [frame] + rest;
      assert AllGood(frames, |s.slots|, max) <==> GoodFrame(frame, |s.slots|, max) && AllGood(rest, |s.slots|, max) by {
        assert forall i | 1 <= i < |frames| :: frames[i] == rest[i - 1];
      }
      ObserveIff(config, s, frame);
      GoodLayout(frame, |s.slots|, max);
      if Observe(config, s, frame).1.None? {
        NextFrames(config, s, frame);
        RoomFirst(config, s, frame, rest);
        ObservedIff(config, Observe(config, s, frame).0, rest);
      } else if GoodFrame(frame, |s.slots|, max) && AllHaveRoom(s.slots, frames, max) {
        RoomForFirst(s.slots, frame, rest, max);
      }
    }
  }

  lemma GoodLayout(frame: DetectionResult, count: nat, max: nat)
    ensures GoodFrame(frame, count, max) ==> |frame.offers| == count
  {
  }

  lemma NextFrames(config: AggregationConfig, s: Accumulated, frame: DetectionResult)
    requires Observe(config, s, frame).1.None? && s.frames <= U32_MAX
    ensures Observe(config, s, frame).0.frames == s.frames + 1 <= U32_MAX
  {
    hide AddOffers;
  }

  /** Frames accepted in one order are accepted in every order. */
  lemma AcceptedInAnyOrder(config: AggregationConfig, count: nat, a: seq<DetectionResult>, b: seq<DetectionResult>)
    requires multiset(a) == multiset(b) && ObserveAll(config, Nothing(count), a).Some?
    ensures ObserveAll(config, Nothing(count), b).Some?
  {
    hide ObserveAll, GoodFrame, TallyAll;
    ObservedIff(config, Nothing(count), a);
    ObservedIff(config, Nothing(count), b);
    TallyPermuted(a, b, 0, config.maxCandidates, "");
    forall j, id | 0 <= j < count
      ensures Entry(Nothing(count).slots[j], id).support + TallyAll(b, j, config.maxCandidates, id).support <= U32_MAX
    {
      TallyPermuted(a, b, j, config.maxCandidates, id);
    }
    forall i | 0 <= i < |b| ensures GoodFrame(b[i], count, config.maxCandidates) {
      assert b[i] in multiset(b);
      var k :| 0 <= k < |a| && a[k] == b[i];
    }
  }

  /** Whether the frames are accepted and what is recommended does not depend on the order of observation. */
  lemma OrderDoesNotMatter(
    config: AggregationConfig, minimum: real, count: nat, a: seq<DetectionResult>, b: seq<DetectionResult>)
    requires config.Valid() && a != [] && multiset(a) == multiset(b)
    requires ObserveAll(config, Nothing(count), a).Some?
    ensures ObserveAll(config, Nothing(count), b).Some?
    ensures var s, t := ObserveAll(config, Nothing(count), a).value, ObserveAll(config, Nothing(count), b).value;
      && s.frames == t.frames == |a| && AllSupported(s) && AllSupported(t)
      && RecommendOver(config, minimum, s) == RecommendOver(config, minimum, t)
  {
    hide ObserveAll, RecommendFrom, TallyAll, FinishSlot;
    AcceptedInAnyOrder(config, count, a, b);
    var s, t := ObserveAll(config, Nothing(count), a).value, ObserveAll(config, Nothing(count), b).value;
    var max := config.maxCandidates;
    TallyPermuted(a, b, 0, max, "");
    FramesCounted(config, count, a);
    FramesCounted(config, count, b);
    forall j | 0 <= j < count ensures StandingsOf(s.slots[j]) == StandingsOf(t.slots[j]) {
      forall id ensures id in s.slots[j] <==> id in t.slots[j]
        ensures Entry(s.slots[j], id) == Entry(t.slots[j], id)
      {
        AccumulatedTally(config, count, a, j, id);
        AccumulatedTally(config, count, b, j, id);
        TallyPermuted(a, b, j, max, id);
      }
    }
    var x, y := Finish(config, minimum, s), Finish(config, minimum, t);
    forall j | 0 <= j < count
      ensures var p, q := x.offers[j].candidates, y.offers[j].candidates;
        && (p == [] <==> q == [])
        && (p != [] ==> p[0].cardId == q[0].cardId && p[0].confidence == q[0].confidence)
    {
      SameStandings(config, s.slots[j], t.slots[j], s.frames);
    }
    SameRecommendations(x, y, 0);
  }

  lemma {:induction false} FramesFrom(config: AggregationConfig, s: Accumulated, frames: seq<DetectionResult>)
    requires ObserveAll(config, s, frames).Some?
    ensures ObserveAll(config, s, frames).value.frames == s.frames + |frames|
    decreases frames
  {
    hide AddOffers;
    if frames != [] {
      FramesFrom(config, Observe(config, s, frames[0]).0, frames[1..]);
    }
  }

  lemma FramesCounted(config: AggregationConfig, count: nat, frames: seq<DetectionResult>)
    requires ObserveAll(config, Nothing(count), frames).Some?
    ensures var s := ObserveAll(config, Nothing(count), frames).value; s.frames == |frames| && AllSupported(s)
  {
    hide ObserveAll;
    FramesFrom(config, Nothing(count), frames);
    forall j | 0 <= j < count ensures Supported(ObserveAll(config, Nothing(count), frames).value.slots[j]) {
      AccumulatedTally(config, count, frames, j, "");
    }
  }

  lemma SoleCandidate(config: AggregationConfig, slot: Slot, frames: nat)
    requires frames > 0 && config.maxCandidates > 0 && Supported(slot) && slot.Keys == {"A"}
    ensures var candidates := FinishSlot(config, slot, frames).candidates;
      candidates != [] && candidates[0].cardId == "A" && candidates[0].confidence == MeanOf(StandingsOf(slot), "A", frames)
  {
    hide MeanOf;
    var standings := StandingsOf(slot);
    var ids := Ranked(standings, frames);
    OrderIsTotal(standings, frames);
    SortedKeysIncreasing(standings.Keys, Order(standings, frames));
    assert "A" in ids && ids[0] in ids;
    assert |ids| == 1 by {
      SortedKeysLength(standings, frames);
    }
  }

  lemma SortedKeysLength(standings: Standings, frames: nat)
    requires frames > 0
    ensures |Ranked(standings, frames)| == |standings.Keys|
  {
    hide StringLess;
    OrderIsTotal(standings, frames);
    SortedKeysIncreasing(standings.Keys, Order(standings, frames));
  }

  // Two inputs that break the promise.

  /** A card shown in one of two frames at a confidence of two passes a threshold of nine tenths. */
  lemma OneFrameMasquerades()
    ensures var frames := [Showing(2.0), EMPTY_FRAME];
      && Recommends(AggregationConfig(2, 0.0, 1), 0.9, 1, frames, ["A"]) && FramesWith(frames, 0, 1, "A") == 1
  {
    hide Recommends, FramesWith;
    FewFramesRecommend(AggregationConfig(2, 0.0, 1), 0.9, 2.0, 2, 1);
    assert Repeated(Showing(2.0), 0) == Repeated(EMPTY_FRAME, 0) == [];
    assert Repeated(Showing(2.0), 1) + Repeated(EMPTY_FRAME, 1) == [Showing(2.0), EMPTY_FRAME];
  }

  const LISTED_TWICE := DetectionResult(
    1, [DetectedOffer([OfferCandidate("A", 0.9, None), OfferCandidate("A", 0.9, None)], ScreenCapture)], 0.0)

  /** So does a card that one frame lists twice, with no confidence above one. */
  lemma RepeatedCardMasquerades()
    ensures var frames := [LISTED_TWICE, EMPTY_FRAME];
      && Recommends(AggregationConfig(2, 0.0, 2), 0.9, 1, frames, ["A"]) && FramesWith(frames, 0, 2, "A") == 1
  {
    hide RecommendFrom, Finish;
    var config, frames := AggregationConfig(2, 0.0, 2), [LISTED_TWICE, EMPTY_FRAME];
    var s := Accumulated(2, [map["A" := CandidateEvidence(1.8, 2.0, 2, ScreenCapture)]]);
    ListedTwice(config);
    assert Repeated(EMPTY_FRAME, 0) == [];
    ShowNothing(config, Accumulated(1, s.slots), 1);
    assert frames[1..] == [EMPTY_FRAME] == Repeated(EMPTY_FRAME, 1);
    RecommendsLeader(config, 0.9, s, 1.8);
    assert Shows(LISTED_TWICE, 0, 2, "A") by {
      assert Top(LISTED_TWICE.offers[0], 2)[0].cardId == "A";
    }
    ShownFrame(2, 0.0, "A");
    assert FramesWith([EMPTY_FRAME], 0, 2, "A") == 0;
  }

  lemma ListedTwice(config: AggregationConfig)
    requires config.maxCandidates == 2
    ensures Observe(config, Nothing(1), LISTED_TWICE)
         == (Accumulated(1, [map["A" := CandidateEvidence(1.8, 2.0, 2, ScreenCapture)]]), None)
  {
    RealId();
    var c := OfferCandidate("A", 0.9, None);
    var s0: Slot := map[];
    var s1, s2 := s0["A" := CandidateEvidence(0.9, 1.0, 1, ScreenCapture)],
                  s0["A" := CandidateEvidence(1.8, 2.0, 2, ScreenCapture)];
    assert AddCandidate(s0, c, ScreenCapture) == (s1, None);
    assert AddCandidate(s1, c, ScreenCapture) == (s2, None) by {
      assert s1["A" := s2["A"]] == s2;
    }
    assert [c][1..] == [] && [c, c][1..] == [c];
    assert AddCandidates(s1, [c], ScreenCapture) == (s2, None);
    assert AddCandidates(s0, [c, c], ScreenCapture) == (s2, None);
    assert Nothing(1).slots == [s0] && [s0][0 := s2] == [s2];
    assert AddOffers([s2], LISTED_TWICE.offers, 2, 1) == ([s2], None);
  }

  // The accumulator as the program keeps it.

  lemma {:induction false} CandidatesSupport(slot: Slot, candidates: seq<OfferCandidate>, source: OfferSource)
    requires Supported(slot)
    ensures Supported(AddCandidates(slot, candidates, source).0)
    decreases candidates
  {
    hide Trim;
    if candidates != [] {
      CandidatesSupport(AddCandidate(slot, candidates[0], source).0, candidates[1..], source);
    }
  }

  lemma {:induction false} OffersSupport(slots: seq<Slot>, offers: seq<DetectedOffer>, max: nat, from: nat)
    requires |slots| == |offers| && from <= |slots| && forall k | 0 <= k < |slots| :: Supported(slots[k])
    ensures forall k | 0 <= k < |slots| :: Supported(AddOffers(slots, offers, max, from).0[k])
    decreases |slots| - from
  {
    hide AddCandidates, Supported, Top;
    if from < |slots| {
      CandidatesSupport(slots[from], Top(offers[from], max), offers[from].source);
      OffersSupport(slots[from := AddCandidates(slots[from], Top(offers[from], max), offers[from].source).0],
                    offers, max, from + 1);
    }
  }

  /** Whatever a frame does, a card that is listed has support. */
  lemma ObserveSupports(config: AggregationConfig, s: Accumulated, result: DetectionResult)
    requires AllSupported(s)
    ensures AllSupported(Observe(config, s, result).0)
  {
    hide AddOffers, Supported;
    if |result.offers| == |s.slots| {
      OffersSupport(s.slots, result.offers, config.maxCandidates, 0);
    }
  }

  class ConfidenceAccumulator {
    const config: AggregationConfig
    const minimumConfidence: real
    const expectedOfferCount: nat
    var observedFrames: nat
    var slots: seq<Slot>

    predicate Valid()
      reads this
    {
      && config.Valid() && UnitInterval(minimumConfidence)
      && |slots| == expectedOfferCount > 0 && AllSupported(Value())
    }

    function Value(): Accumulated
      reads this
    {
      Accumulated(observedFrames, slots)
    }

    constructor (config: AggregationConfig, minimum: real, count: nat)
      requires config.Valid() && UnitInterval(minimum) && count > 0
      ensures Valid() && Value() == Nothing(count)
      ensures this.config == config && minimumConfidence == minimum && expectedOfferCount == count
    {
      this.config, minimumConfidence, expectedOfferCount := config, minimum, count;
      observedFrames := 0;
      slots := seq(count, _ => map[]);
    }

    static method ForOfferCount(config: AggregationConfig, minimum: real, count: nat)
      returns (r: Result<ConfidenceAccumulator, RecognitionError>)
      ensures r.Ok? <==> config.Valid() && UnitInterval(minimum) && count > 0
      ensures r.Ok? ==> fresh(r.value) && r.value.Valid() && r.value.Value() == Nothing(count)
      ensures r.Err? ==> r.error == if !config.Valid() then InvalidAggregationConfig
                                    else if !UnitInterval(minimum) then InvalidMatcherConfig else InvalidGeometry
    {
      if !config.Valid() {
        return Err(InvalidAggregationConfig);
      }
      if !UnitInterval(minimum) {
        return Err(InvalidMatcherConfig);
      }
      if count == 0 {
        return Err(InvalidGeometry);
      }
      var accumulator := new ConfidenceAccumulator(config, minimum, count);
      return Ok(accumulator);
    }

    method ObserveSlot(slot: nat, offer: DetectedOffer) returns (error: Option<RecognitionError>)
      requires slot < |slots|
      modifies this`slots
      ensures var added := AddCandidates(old(slots)[slot], Top(offer, config.maxCandidates), offer.source);
        slots == old(slots)[slot := added.0] && error == added.1
    {
      hide AddCandidate;
      var candidates := Top(offer, config.maxCandidates);
      for i := 0 to |candidates|
        invariant |slots| == |old(slots)| && slots == old(slots)[slot := slots[slot]]
        invariant AddCandidates(slots[slot], candidates[i..], offer.source)
               == AddCandidates(old(slots)[slot], candidates, offer.source)
      {
        assert candidates[i..][1..] == candidates[i + 1..];
        var added := AddCandidate(slots[slot], candidates[i], offer.source);
        slots := slots[slot := added.0];
        if added.1.Some? {
          return added.1;
        }
      }
      return None;
    }

    /** Adds one frame; a malformed one may leave part of its evidence behind. */
    method ObserveFrame(result: DetectionResult) returns (error: Option<RecognitionError>)
      requires Valid()
      modifies this`observedFrames, this`slots
      ensures Valid() && (Value(), error) == Observe(config, old(Value()), result)
    {
      hide AddCandidates;
      ObserveSupports(config, Value(), result);
      if result.expectedOfferCount != expectedOfferCount || |result.offers| != expectedOfferCount {
        return Some(WrongOfferCount(expectedOfferCount, |result.offers|));
      }
      if observedFrames == U32_MAX {
        return Some(TooManyObservations);
      }
      observedFrames := observedFrames + 1;
      for slot := 0 to |result.offers|
        invariant |slots| == |result.offers| && observedFrames == old(observedFrames) + 1
        invariant AddOffers(slots, result.offers, config.maxCandidates, slot)
               == AddOffers(old(slots), result.offers, config.maxCandidates, 0)
      {
        error := ObserveSlot(slot, result.offers[slot]);
        if error.Some? {
          return error;
        }
      }
      return None;
    }

    /** Confidence over all observed frames, distance over the supporting ones. */
    method Average(slot: Slot, ids: seq<string>) returns (candidates: seq<OfferCandidate>)
      requires observedFrames > 0 && forall id | id in ids :: id in slot && slot[id].support > 0
      ensures candidates == Finished(config, slot, observedFrames, ids)
    {
      candidates := [];
      for i := 0 to |ids|
        invariant |candidates| == i
        invariant forall k | 0 <= k < i :: candidates[k] == Finished(config, slot, observedFrames, ids)[k]
      {
        var id := ids[i];
        assert id in ids;
        var confidence := slot[id].confidenceSum / observedFrames as real;
        var distance := slot[id].distanceSum / slot[id].support as real;
        candidates := candidates + [OfferCandidate(id, confidence, Some(distance))];
      }
    }

    /** The leader keeps less of its confidence the narrower its lead. */
    method DiscountLeader(candidates: seq<OfferCandidate>) returns (discounted: seq<OfferCandidate>)
      requires config.Valid() && candidates != []
      ensures |discounted| == |candidates| && discounted[1..] == candidates[1..]
      ensures discounted[0] == candidates[0].(confidence :=
        if |candidates| == 1 then candidates[0].confidence
        else candidates[0].confidence * MarginFactor(config, candidates[0].confidence - candidates[1].confidence))
    {
      discounted := candidates;
      if |candidates| > 1 && config.minimumMargin > 0.0 {
        var lead := candidates[0].confidence - candidates[1].confidence;
        var margin := if lead > 0.0 then lead else 0.0;
        var ratio := margin / config.minimumMargin;
        var factor := if ratio < 1.0 then ratio else 1.0;
        assert factor == MarginFactor(config, lead);
        discounted := candidates[0 := candidates[0].(confidence := candidates[0].confidence * factor)];
      }
    }

    /** One slot: averaged, best first, the leader discounted, no more candidates than configured. */
    method FinishOffer(slot: Slot) returns (offer: DetectedOffer)
      requires config.Valid() && observedFrames > 0 && Supported(slot)
      ensures offer == FinishSlot(config, slot, observedFrames)
    {
      hide Ranked, MeanOf, MarginFactor;
      var ids := Ranked(StandingsOf(slot), observedFrames);
      var candidates := Average(slot, ids);
      var source := ScreenCapture;
      if candidates != [] {
        source := slot[ids[0]].source;
        var all := candidates;
        candidates := DiscountLeader(all);
        assert candidates == [candidates[0]] + all[1..] == all[0 := candidates[0]];
        assert candidates[0].confidence == TopConfidence(config, StandingsOf(slot), observedFrames);
      }
      if |candidates| > config.maxCandidates {
        candidates := candidates[..config.maxCandidates];
      }
      return DetectedOffer(candidates, source);
    }

    /** The averaged, ranked and discounted candidates of every slot. */
    method FinishDetection() returns (r: Result<DetectionResult, RecognitionError>)
      requires Valid()
      ensures r == if observedFrames == 0 then Err(NoObservations) else Ok(Finish(config, minimumConfidence, Value()))
    {
      hide FinishSlot, Supported;
      if observedFrames == 0 {
        return Err(NoObservations);
      }
      var offers: seq<DetectedOffer> := [];
      for j := 0 to |slots|
        invariant |offers| == j && forall k | 0 <= k < j :: offers[k] == FinishSlot(config, slots[k], observedFrames)
      {
        var offer := FinishOffer(slots[j]);
        offers := offers + [offer];
      }
      assert offers == Finish(config, minimumConfidence, Value()).offers;
      return Ok(DetectionResult(expectedOfferCount, offers, minimumConfidence));
    }
  }
}
