/** What the recognition ends with, in terms of the frames alone: which cards are offered, and exactly when they are
    recommended. */
module ReadyExactly {
  import opened Prelude
  import opened Text
  import opened Ordered
  import opened Evidence

  // What the frames say.

  /** Some retained candidate of the slot was this card. */
  predicate Seen(frames: seq<DetectionResult>, j: nat, max: nat, id: string) {
    TallyAll(frames, j, max, id).support > 0
  }

  /** The card's confidence averaged over all frames. */
  function Mean(frames: seq<DetectionResult>, j: nat, max: nat, id: string): real
    requires frames != []
  {
    TallyAll(frames, j, max, id).confidence / |frames| as real
  }

  /** The one card has the higher mean, or the same and the smaller id. */
  predicate Ahead(frames: seq<DetectionResult>, j: nat, max: nat, a: string, b: string)
    requires frames != []
  {
    || Mean(frames, j, max, a) > Mean(frames, j, max, b)
    || (Mean(frames, j, max, a) == Mean(frames, j, max, b) && StringLess(a, b))
  }

  /** The best card of the slot among those that are not left out. */
  ghost predicate BestBut(frames: seq<DetectionResult>, j: nat, max: nat, out: set<string>, id: string)
    requires frames != []
  {
    && id !in out && Seen(frames, j, max, id)
    && forall other | other !in out && other != id && Seen(frames, j, max, other) :: Ahead(frames, j, max, id, other)
  }

  /** The leader of a slot passes the threshold: by its mean without a rival or a margin to keep, and otherwise by its
      mean times the share of the margin that its lead over the runner-up covers. */
  ghost predicate Passes(
    config: AggregationConfig, minimum: real, frames: seq<DetectionResult>, j: nat, id: string)
    requires frames != []
  {
    var max, mean := config.maxCandidates, Mean(frames, j, config.maxCandidates, id);
    && ((config.minimumMargin == 0.0 || forall other | Seen(frames, j, max, other) :: other == id) ==> mean >= minimum)
    && (config.minimumMargin > 0.0 ==> forall second | BestBut(frames, j, max, {id}, second) ::
          var lead := mean - Mean(frames, j, max, second);
          (if lead < config.minimumMargin then mean * (lead / config.minimumMargin) else mean) >= minimum)
  }

  // The slot that the frames leave.

  /** The slot holds what the frames say. */
  ghost predicate Holds(slot: Slot, frames: seq<DetectionResult>, j: nat, max: nat) {
    && frames != [] && Supported(slot)
    && forall id :: (id in slot <==> Seen(frames, j, max, id)) && Entry(slot, id) == TallyAll(frames, j, max, id)
  }

  lemma SlotHolds(config: AggregationConfig, count: nat, frames: seq<DetectionResult>, j: nat)
    requires j < count && frames != [] && ObserveAll(config, Nothing(count), frames).Some?
    ensures var s := ObserveAll(config, Nothing(count), frames).value;
      && s.frames == |frames| && |s.slots| == count && AllSupported(s)
      && Holds(s.slots[j], frames, j, config.maxCandidates)
  {
    hide ObserveAll, TallyAll, Entry, Supported;
    FramesCounted(config, count, frames);
    forall id
      ensures id in ObserveAll(config, Nothing(count), frames).value.slots[j] <==> Seen(frames, j, config.maxCandidates, id)
      ensures Entry(ObserveAll(config, Nothing(count), frames).value.slots[j], id)
           == TallyAll(frames, j, config.maxCandidates, id)
    {
      AccumulatedTally(config, count, frames, j, id);
    }
  }

  lemma MeansAgree(slot: Slot, frames: seq<DetectionResult>, j: nat, max: nat, id: string)
    requires Holds(slot, frames, j, max)
    ensures MeanOf(StandingsOf(slot), id, |frames|) == Mean(frames, j, max, id)
  {
    hide TallyAll;
    MeanIsTally(slot, id, |frames|);
  }

  lemma OrdersAgree(slot: Slot, frames: seq<DetectionResult>, j: nat, max: nat, a: string, b: string)
    requires Holds(slot, frames, j, max)
    ensures Better(StandingsOf(slot), |frames|, a, b) <==> Ahead(frames, j, max, a, b)
  {
    hide MeanOf, Mean, Holds, StringLess;
    MeansAgree(slot, frames, j, max, a);
    MeansAgree(slot, frames, j, max, b);
  }

  /** The ranking of a slot: its first is the best card, its second the best of the others. */
  lemma RankingIs(slot: Slot, frames: seq<DetectionResult>, j: nat, max: nat)
    requires Holds(slot, frames, j, max)
    ensures var ids := Ranked(StandingsOf(slot), |frames|);
      && (forall i, k | 0 <= i < k < |ids| :: Ahead(frames, j, max, ids[i], ids[k]))
      && (forall id :: id in ids <==> Seen(frames, j, max, id))
  {
    hide StringLess, Ahead;
    var standings := StandingsOf(slot);
    OrderIsTotal(standings, |frames|);
    SortedKeysIncreasing(standings.Keys, Order(standings, |frames|));
    var ids := Ranked(standings, |frames|);
    forall i, k | 0 <= i < k < |ids| ensures Ahead(frames, j, max, ids[i], ids[k]) {
      assert Order(standings, |frames|)(ids[i], ids[k]);
      OrdersAgree(slot, frames, j, max, ids[i], ids[k]);
    }
  }

  lemma AheadIrreflexive(frames: seq<DetectionResult>, j: nat, max: nat, a: string, b: string)
    requires frames != []
    ensures !(Ahead(frames, j, max, a, b) && Ahead(frames, j, max, b, a))
  {
    StringLessAsymmetric(a, b);
  }

  /** First and second of a ranking, as the frames describe them. */
  lemma RankedPlaces(frames: seq<DetectionResult>, j: nat, max: nat, ids: seq<string>, id: string)
    requires frames != [] && (forall i, k | 0 <= i < k < |ids| :: Ahead(frames, j, max, ids[i], ids[k]))
    requires forall id :: id in ids <==> Seen(frames, j, max, id)
    ensures BestBut(frames, j, max, {}, id) <==> ids != [] && ids[0] == id
    ensures ids != [] ==> (BestBut(frames, j, max, {ids[0]}, id) <==> |ids| > 1 && ids[1] == id)
    ensures ids != [] ==> ((forall other | Seen(frames, j, max, other) :: other == ids[0]) <==> |ids| == 1)
  {
    hide Ahead, Seen;
    forall k: nat | k < |ids| ensures Seen(frames, j, max, ids[k]) {
      assert ids[k] in ids;
    }
    forall other | Seen(frames, j, max, other) ensures exists k: nat :: k < |ids| && ids[k] == other {
      assert other in ids;
    }
    forall i, k | 0 <= i < k < |ids| ensures ids[i] != ids[k] {
      AheadIrreflexive(frames, j, max, ids[i], ids[k]);
    }
    if BestBut(frames, j, max, {}, id) && ids[0] != id {
      AheadIrreflexive(frames, j, max, id, ids[0]);
    }
    if ids != [] && BestBut(frames, j, max, {ids[0]}, id) {
      if |ids| > 1 && ids[1] != id {
        AheadIrreflexive(frames, j, max, id, ids[1]);
      }
    }
  }

  // When a slot is recommended.

  /** The candidate a slot puts forward. */
  ghost predicate PutsForward(config: AggregationConfig, minimum: real, slot: Slot, frames: nat, id: string)
    requires frames > 0 && Supported(slot)
  {
    var candidates := FinishSlot(config, slot, frames).candidates;
    candidates != [] && candidates[0].cardId == id && candidates[0].confidence >= minimum
  }

  lemma FactorIs(config: AggregationConfig, mean: real, lead: real)
    requires config.Valid() && lead >= 0.0
    ensures mean * MarginFactor(config, lead)
         == if config.minimumMargin > 0.0 && lead < config.minimumMargin then mean * (lead / config.minimumMargin) else mean
  {
    if config.minimumMargin > 0.0 {
      DivTimes(lead, config.minimumMargin);
      RatioBelowOne(lead, config.minimumMargin);
    }
  }

  lemma RatioBelowOne(lead: real, margin: real)
    requires margin > 0.0
    ensures lead / margin < 1.0 <==> lead < margin
  {
  }

  lemma LeaderConfidence(config: AggregationConfig, slot: Slot, frames: nat)
    requires config.Valid() && frames > 0 && Supported(slot) && Ranked(StandingsOf(slot), frames) != []
    ensures var ids, candidates := Ranked(StandingsOf(slot), frames), FinishSlot(config, slot, frames).candidates;
      && candidates != [] && candidates[0].cardId == ids[0]
      && candidates[0].confidence == TopConfidence(config, StandingsOf(slot), frames)
  {
    hide Ranked, MeanOf, MarginFactor;
  }

  lemma SlotPasses(
    config: AggregationConfig, minimum: real, slot: Slot, frames: seq<DetectionResult>, j: nat, id: string)
    requires config.Valid() && Holds(slot, frames, j, config.maxCandidates)
    ensures PutsForward(config, minimum, slot, |frames|, id)
       <==> BestBut(frames, j, config.maxCandidates, {}, id) && Passes(config, minimum, frames, j, id)
  {
    hide Ranked, MeanOf, MarginFactor, Mean, Ahead, Seen, BestBut, FinishSlot;
    var max, n, standings := config.maxCandidates, |frames|, StandingsOf(slot);
    var ids := Ranked(standings, n);
    RankingIs(slot, frames, j, max);
    RankedPlaces(frames, j, max, ids, id);
    if ids != [] {
      LeaderConfidence(config, slot, n);
      MeansAgree(slot, frames, j, max, ids[0]);
      if |ids| > 1 {
        MeansAgree(slot, frames, j, max, ids[1]);
        LeadNotNegative(frames, j, max, ids[0], ids[1]);
        FactorIs(config, Mean(frames, j, max, ids[0]), Mean(frames, j, max, ids[0]) - Mean(frames, j, max, ids[1]));
        RankedPlaces(frames, j, max, ids, ids[1]);
      }
      if id == ids[0] {
        RunnersUp(frames, j, max, ids);
        PassesIs(config, minimum, frames, j, ids);
      }
    } else {
      NoCandidates(config, slot, n);
    }
  }

  lemma NoCandidates(config: AggregationConfig, slot: Slot, frames: nat)
    requires frames > 0 && Supported(slot) && Ranked(StandingsOf(slot), frames) == []
    ensures FinishSlot(config, slot, frames).candidates == []
  {
    hide Ranked, MeanOf;
  }

  lemma LeadNotNegative(frames: seq<DetectionResult>, j: nat, max: nat, a: string, b: string)
    requires frames != [] && Ahead(frames, j, max, a, b)
    ensures Mean(frames, j, max, a) - Mean(frames, j, max, b) >= 0.0
  {
    hide Mean, StringLess;
  }

  /** Only the second of the ranking is a runner-up. */
  lemma RunnersUp(frames: seq<DetectionResult>, j: nat, max: nat, ids: seq<string>)
    requires frames != [] && ids != [] && (forall i, k | 0 <= i < k < |ids| :: Ahead(frames, j, max, ids[i], ids[k]))
    requires forall id :: id in ids <==> Seen(frames, j, max, id)
    ensures forall second :: BestBut(frames, j, max, {ids[0]}, second) <==> |ids| > 1 && ids[1] == second
  {
    hide Ahead, Seen, BestBut;
    forall second ensures BestBut(frames, j, max, {ids[0]}, second) <==> |ids| > 1 && ids[1] == second {
      RankedPlaces(frames, j, max, ids, second);
    }
  }

  lemma PassesIs(config: AggregationConfig, minimum: real, frames: seq<DetectionResult>, j: nat, ids: seq<string>)
    requires config.Valid() && frames != [] && ids != []
    requires forall second ::
      BestBut(frames, j, config.maxCandidates, {ids[0]}, second) <==> |ids| > 1 && ids[1] == second
    requires (forall other | Seen(frames, j, config.maxCandidates, other) :: other == ids[0]) <==> |ids| == 1
    ensures var mean := Mean(frames, j, config.maxCandidates, ids[0]);
      Passes(config, minimum, frames, j, ids[0]) <==>
        if |ids| > 1 && config.minimumMargin > 0.0 then
          var lead := mean - Mean(frames, j, config.maxCandidates, ids[1]);
          (if lead < config.minimumMargin then mean * (lead / config.minimumMargin) else mean) >= minimum
        else mean >= minimum
  {
    hide Mean, Seen, BestBut;
  }

  // The whole recommendation.

  /** Every slot of a result has a first candidate that is named and passes. */
  predicate AllPass(result: DetectionResult, from: nat, ids: seq<string>) {
    && from <= |result.offers| && |ids| == |result.offers| - from
    && forall j | from <= j < |result.offers| ::
         var candidates := result.offers[j].candidates;
         && candidates != [] && candidates[0].cardId == ids[j - from]
         && Trim(candidates[0].cardId) != "" && candidates[0].confidence >= result.minimumConfidence
  }

  predicate FirstPasses(result: DetectionResult, j: nat, id: string)
    requires j < |result.offers|
  {
    var candidates := result.offers[j].candidates;
    candidates != [] && candidates[0].cardId == id && Trim(id) != "" && candidates[0].confidence >= result.minimumConfidence
  }

  lemma AllPassCons(result: DetectionResult, from: nat, ids: seq<string>)
    requires from < |result.offers|
    ensures AllPass(result, from, ids)
       <==> ids != [] && FirstPasses(result, from, ids[0]) && AllPass(result, from + 1, ids[1..])
  {
    hide Trim;
    if ids != [] {
      assert forall k | 1 <= k < |ids| :: ids[k] == ids[1..][k - 1];
    }
  }

  lemma RecommendCons(result: DetectionResult, from: nat, ids: seq<string>)
    requires from < |result.offers|
    ensures RecommendFrom(result, from) == Ready(ids)
       <==> ids != [] && FirstPasses(result, from, ids[0]) && RecommendFrom(result, from + 1) == Ready(ids[1..])
  {
    hide Trim;
    if ids != [] {
      assert ids == [ids[0]] + ids[1..];
    }
  }

  lemma {:induction false} RecommendIff(result: DetectionResult, from: nat, ids: seq<string>)
    requires from <= |result.offers|
    ensures RecommendFrom(result, from) == Ready(ids) <==> AllPass(result, from, ids)
    decreases |result.offers| - from
  {
    hide FirstPasses;
    if from < |result.offers| {
      hide RecommendFrom, AllPass;
      AllPassCons(result, from, ids);
      RecommendCons(result, from, ids);
      if ids != [] {
        RecommendIff(result, from + 1, ids[1..]);
      }
    }
  }

  /** Cards that were seen have names. */
  lemma SeenAreNamed(config: AggregationConfig, count: nat, frames: seq<DetectionResult>, j: nat, id: string)
    requires j < count && |frames| <= U32_MAX && ObserveAll(config, Nothing(count), frames).Some?
    requires Seen(frames, j, config.maxCandidates, id)
    ensures Trim(id) != ""
  {
    hide ObserveAll, GoodFrame, Trim;
    ObservedIff(config, Nothing(count), frames);
    SeenIsNamed(frames, j, count, config.maxCandidates, id);
  }

  lemma {:induction false} SeenIsNamed(frames: seq<DetectionResult>, j: nat, count: nat, max: nat, id: string)
    requires j < count && AllGood(frames, count, max) && Seen(frames, j, max, id)
    ensures Trim(id) != ""
  {
    hide Trim, TallyIn, Top, GoodCandidates;
    if TallyFrame(frames[0], j, max, id).support > 0 {
      assert GoodFrame(frames[0], count, max);
      ListedIsNamed(Top(frames[0].offers[j], max), id);
    } else {
      SeenIsNamed(frames[1..], j, count, max, id);
    }
  }

  lemma {:induction false} ListedIsNamed(candidates: seq<OfferCandidate>, id: string)
    requires GoodCandidates(candidates) && TallyIn(candidates, id).support > 0
    ensures Trim(id) != ""
  {
    hide Trim;
    if candidates[0].cardId != id {
      ListedIsNamed(candidates[1..], id);
    } else {
      assert GoodCandidate(candidates[0]);
    }
  }

  /** A recommendation is ready if and only if enough frames were observed and in every slot the recommended card is the
      best one that was seen and passes the threshold, discounted for a narrow lead. */
  lemma ReadyIff(
    config: AggregationConfig, minimum: real, count: nat, frames: seq<DetectionResult>, ids: seq<string>)
    requires config.Valid() && UnitInterval(minimum) && count > 0 && frames != []
    requires ObserveAll(config, Nothing(count), frames).Some?
    ensures var s := ObserveAll(config, Nothing(count), frames).value;
      && s.frames == |frames| && AllSupported(s)
      && (RecommendOver(config, minimum, s) == Ready(ids) <==>
            && |frames| >= config.minimumFrames && |ids| == count
            && forall j | 0 <= j < count ::
                 BestBut(frames, j, config.maxCandidates, {}, ids[j]) && Passes(config, minimum, frames, j, ids[j]))
  {
    hide ObserveAll, RecommendFrom, FinishSlot, BestBut, Passes, Holds, Supported, Trim;
    var s := ObserveAll(config, Nothing(count), frames).value;
    SlotHolds(config, count, frames, 0);
    FramesLimited(config, Nothing(count), frames);
    var result := Finish(config, minimum, s);
    RecommendIff(result, 0, ids);
    if |ids| == count {
      forall j | 0 <= j < count
        ensures PutsForward(config, minimum, s.slots[j], |frames|, ids[j]) <==>
          BestBut(frames, j, config.maxCandidates, {}, ids[j]) && Passes(config, minimum, frames, j, ids[j])
        ensures PutsForward(config, minimum, s.slots[j], |frames|, ids[j]) ==> Trim(ids[j]) != ""
      {
        SlotHolds(config, count, frames, j);
        SlotPasses(config, minimum, s.slots[j], frames, j, ids[j]);
        if BestBut(frames, j, config.maxCandidates, {}, ids[j]) {
          BestWasSeen(frames, j, config.maxCandidates, ids[j]);
          SeenAreNamed(config, count, frames, j, ids[j]);
        }
      }
      forall j | 0 <= j < count ensures result.offers[j] == FinishSlot(config, s.slots[j], |frames|) {
      }
    }
  }

  lemma BestWasSeen(frames: seq<DetectionResult>, j: nat, max: nat, id: string)
    requires frames != [] && BestBut(frames, j, max, {}, id)
    ensures Seen(frames, j, max, id)
  {
  }

  // Why a recommendation is withheld.

  predicate SlotPassing(result: DetectionResult, j: nat)
    requires j < |result.offers|
  {
    result.offers[j].candidates != [] && FirstPasses(result, j, result.offers[j].candidates[0].cardId)
  }

  /** The complaint about a slot that does not pass. */
  function SlotReason(result: DetectionResult, j: nat): WithheldReason
    requires j < |result.offers|
  {
    if |result.offers[j].candidates| == 0 then MissingCandidate(j)
    else LowConfidence(j, result.offers[j].candidates[0].confidence, result.minimumConfidence)
  }

  lemma {:induction false} FirstSlotWithholds(result: DetectionResult, from: nat)
    requires from <= |result.offers|
    ensures RecommendFrom(result, from).Withheld? <==> exists j | from <= j < |result.offers| :: !SlotPassing(result, j)
    ensures RecommendFrom(result, from).Withheld? ==>
      exists j | from <= j < |result.offers| ::
        && !SlotPassing(result, j) && (forall i | from <= i < j :: SlotPassing(result, i))
        && RecommendFrom(result, from).reason == SlotReason(result, j)
    decreases |result.offers| - from
  {
    hide RecommendFrom, SlotPassing, SlotReason;
    RecommendStep(result, from);
    if from < |result.offers| {
      FirstSlotWithholds(result, from + 1);
      if SlotPassing(result, from) && RecommendFrom(result, from + 1).Withheld? {
        var j :| && from + 1 <= j < |result.offers| && !SlotPassing(result, j)
          && (forall i | from + 1 <= i < j :: SlotPassing(result, i))
          && RecommendFrom(result, from + 1).reason == SlotReason(result, j);
        assert forall i | from <= i < j :: SlotPassing(result, i);
      }
    }
  }

  lemma RecommendStep(result: DetectionResult, from: nat)
    requires from <= |result.offers|
    ensures from == |result.offers| ==> RecommendFrom(result, from).Ready?
    ensures from < |result.offers| && !SlotPassing(result, from) ==>
      RecommendFrom(result, from) == Withheld(SlotReason(result, from))
    ensures from < |result.offers| && SlotPassing(result, from) ==>
      && (RecommendFrom(result, from).Withheld? <==> RecommendFrom(result, from + 1).Withheld?)
      && (RecommendFrom(result, from).Withheld? ==> RecommendFrom(result, from) == RecommendFrom(result, from + 1))
  {
    hide Trim;
  }

  /** A recommendation is withheld for a wrong number of offers, else for a threshold outside the unit interval, else for
      the first slot that does not pass; otherwise it is ready. */
  lemma WithheldFor(result: DetectionResult)
    ensures var expected, actual := result.expectedOfferCount, |result.offers|;
      if expected == 0 || actual != expected then Recommend(result) == Withheld(ExpectedOfferCount(expected, actual))
      else if result.minimumConfidence < 0.0 || result.minimumConfidence > 1.0
      then Recommend(result) == Withheld(InvalidConfidenceThreshold)
      else if forall j | 0 <= j < actual :: SlotPassing(result, j) then Recommend(result).Ready?
      else exists j | 0 <= j < actual ::
        && !SlotPassing(result, j) && (forall i | 0 <= i < j :: SlotPassing(result, i))
        && Recommend(result) == Withheld(SlotReason(result, j))
  {
    hide RecommendFrom, SlotPassing, SlotReason;
    FirstSlotWithholds(result, 0);
  }

  // Why a frame is refused.

  lemma {:induction false} BadCandidate(slot: Slot, candidates: seq<OfferCandidate>, source: OfferSource)
    requires AddCandidates(slot, candidates, source).1.Some?
    ensures exists k | 0 <= k < |candidates| ::
      Refused(candidates[k], AddCandidates(slot, candidates, source).1.value) && GoodCandidates(candidates[..k])
    decreases candidates
  {
    hide Trim, AddCandidate;
    var added := AddCandidate(slot, candidates[0], source);
    OneRefused(slot, candidates[0], source);
    if added.1.None? {
      BadCandidate(added.0, candidates[1..], source);
      var error := AddCandidates(slot, candidates, source).1.value;
      var k :| 0 <= k < |candidates[1..]| && Refused(candidates[1..][k], error) && GoodCandidates(candidates[1..][..k]);
      assert candidates[1..][k] == candidates[k + 1];
      assert candidates[..k + 1] == [candidates[0]] + candidates[1..][..k];
    } else {
      assert GoodCandidates(candidates[..0]);
    }
  }

  /** The error fits the candidate: no name, a distance outside the unit interval, or one appearance too many. */
  predicate Refused(c: OfferCandidate, error: RecognitionError) {
    if Trim(c.cardId) == "" then error.InvalidCardId?
    else if c.distance.Some? && !(0.0 <= c.distance.value <= 1.0) then error.InvalidCandidateEvidence?
    else error.TooManyObservations?
  }

  lemma OneRefused(slot: Slot, c: OfferCandidate, source: OfferSource)
    ensures var error := AddCandidate(slot, c, source).1;
      && (error.Some? ==> Refused(c, error.value))
      && (error.None? ==> GoodCandidate(c))
      && (error == Some(TooManyObservations) ==>
            && GoodCandidate(c) && c.cardId in slot && slot[c.cardId].support == U32_MAX
            && var after := AddCandidate(slot, c, source).0;
            && c.cardId in after && after[c.cardId].support == U32_MAX
            && after[c.cardId].confidenceSum == slot[c.cardId].confidenceSum + c.confidence
            && forall id | id != c.cardId :: Entry(after, id) == Entry(slot, id))
      && (error.Some? && !error.value.TooManyObservations? ==> AddCandidate(slot, c, source).0 == slot)
  {
    hide Trim;
  }

  lemma {:induction false} BadSlot(slots: seq<Slot>, offers: seq<DetectedOffer>, max: nat, from: nat)
    requires |slots| == |offers| && from <= |slots| && AddOffers(slots, offers, max, from).1.Some?
    ensures exists j, k | 0 <= j < |offers| && 0 <= k < |Top(offers[j], max)| ::
      Refused(Top(offers[j], max)[k], AddOffers(slots, offers, max, from).1.value)
    decreases |slots| - from
  {
    hide AddCandidates, Top, Refused;
    var candidates, source := Top(offers[from], max), offers[from].source;
    var added := AddCandidates(slots[from], candidates, source);
    if added.1.Some? {
      BadCandidate(slots[from], candidates, source);
      var k :| 0 <= k < |candidates| && Refused(candidates[k], added.1.value);
    } else {
      BadSlot(slots[from := added.0], offers, max, from + 1);
    }
  }

  /** A frame is refused outright for its number of offers or when the count of frames is exhausted; otherwise it is counted,
      and refused later only for a candidate that deserves the error. */
  lemma FrameRefusal(config: AggregationConfig, s: Accumulated, result: DetectionResult)
    ensures var observed, count := Observe(config, s, result), |s.slots|;
      if result.expectedOfferCount != count || |result.offers| != count
      then observed == (s, Some(WrongOfferCount(count, |result.offers|)))
      else if s.frames == 0xFFFF_FFFF then observed == (s, Some(TooManyObservations))
      else
        && observed.0.frames == s.frames + 1
        && (observed.1.Some? ==>
              exists j, k | 0 <= j < count && 0 <= k < |Top(result.offers[j], config.maxCandidates)| ::
                Refused(Top(result.offers[j], config.maxCandidates)[k], observed.1.value))
  {
    hide AddOffers, Top, Refused;
    if result.expectedOfferCount == |s.slots| == |result.offers| && s.frames != U32_MAX
       && AddOffers(s.slots, result.offers, config.maxCandidates, 0).1.Some? {
      BadSlot(s.slots, result.offers, config.maxCandidates, 0);
    }
  }

  // Everything that is offered.

  function DistanceIn(candidates: seq<OfferCandidate>, id: string): real {
    if candidates == [] then 0.0
    else
      (if candidates[0].cardId != id then 0.0
       else if candidates[0].distance.Some? then candidates[0].distance.value else 1.0)
      + DistanceIn(candidates[1..], id)
  }

  /** The distances of a card over all frames; a candidate without one counts as one. */
  function DistanceAll(frames: seq<DetectionResult>, j: nat, max: nat, id: string): real {
    if frames == [] then 0.0
    else
      (if j < |frames[0].offers| then DistanceIn(Top(frames[0].offers[j], max), id) else 0.0)
      + DistanceAll(frames[1..], j, max, id)
  }

  /** The distance averaged over the candidates that were this card. */
  function MeanDistance(frames: seq<DetectionResult>, j: nat, max: nat, id: string): real {
    if Seen(frames, j, max, id) then DistanceAll(frames, j, max, id) / TallyAll(frames, j, max, id).support as real
    else 0.0
  }

  function DistanceOf(slot: Slot, id: string): real {
    if id in slot then slot[id].distanceSum else 0.0
  }

  lemma AddCandidateDistance(slot: Slot, c: OfferCandidate, source: OfferSource, id: string)
    requires AddCandidate(slot, c, source).1.None?
    ensures DistanceOf(AddCandidate(slot, c, source).0, id) == DistanceOf(slot, id) + DistanceIn([c], id)
  {
    hide Trim;
    assert [c][1..] == [];
  }

  lemma {:induction false} AddCandidatesDistance(
    slot: Slot, candidates: seq<OfferCandidate>, source: OfferSource, id: string)
    requires AddCandidates(slot, candidates, source).1.None?
    ensures DistanceOf(AddCandidates(slot, candidates, source).0, id) == DistanceOf(slot, id) + DistanceIn(candidates, id)
    decreases candidates
  {
    hide AddCandidate, DistanceOf;
    if candidates != [] {
      AddCandidateDistance(slot, candidates[0], source, id);
      AddCandidatesDistance(AddCandidate(slot, candidates[0], source).0, candidates[1..], source, id);
      assert [candidates[0]][1..] == [];
    }
  }

  lemma {:induction false} AddOffersDistance(
    slots: seq<Slot>, offers: seq<DetectedOffer>, max: nat, from: nat, j: nat, id: string)
    requires |slots| == |offers| && from <= |slots| && j < |slots| && AddOffers(slots, offers, max, from).1.None?
    ensures DistanceOf(AddOffers(slots, offers, max, from).0[j], id)
         == DistanceOf(slots[j], id) + if j < from then 0.0 else DistanceIn(Top(offers[j], max), id)
    decreases |slots| - from
  {
    hide AddCandidates, DistanceIn, DistanceOf, Top;
    if from < |slots| {
      var added := AddCandidates(slots[from], Top(offers[from], max), offers[from].source);
      AddCandidatesDistance(slots[from], Top(offers[from], max), offers[from].source, id);
      AddOffersDistance(slots[from := added.0], offers, max, from + 1, j, id);
    }
  }

  lemma {:induction false} AccumulatedDistance(
    config: AggregationConfig, s: Accumulated, frames: seq<DetectionResult>, j: nat, id: string)
    requires j < |s.slots| && ObserveAll(config, s, frames).Some?
    ensures DistanceOf(ObserveAll(config, s, frames).value.slots[j], id)
         == DistanceOf(s.slots[j], id) + DistanceAll(frames, j, config.maxCandidates, id)
    decreases frames
  {
    hide AddOffers, DistanceIn, DistanceOf, Top;
    if frames != [] {
      AddOffersDistance(s.slots, frames[0].offers, config.maxCandidates, 0, j, id);
      AccumulatedDistance(config, Observe(config, s, frames[0]).0, frames[1..], j, id);
    }
  }

  /** The offer of a slot: the best cards that were seen, best first, no more than configured, each but the leader with
      its mean confidence, and each with its mean distance where it was seen. */
  ghost predicate Offers(
    config: AggregationConfig, frames: seq<DetectionResult>, j: nat, candidates: seq<OfferCandidate>)
    requires frames != []
  {
    var max := config.maxCandidates;
    && |candidates| <= max
    && (forall i | 0 <= i < |candidates| ::
          && Seen(frames, j, max, candidates[i].cardId)
          && (i > 0 ==> candidates[i].confidence == Mean(frames, j, max, candidates[i].cardId))
          && candidates[i].distance == Some(MeanDistance(frames, j, max, candidates[i].cardId)))
    && (forall i, k | 0 <= i < k < |candidates| ::
          Ahead(frames, j, max, candidates[i].cardId, candidates[k].cardId))
    && (forall id | Seen(frames, j, max, id) ::
          || (exists i :: 0 <= i < |candidates| && candidates[i].cardId == id)
          || (|candidates| == max && forall i | 0 <= i < |candidates| :: Ahead(frames, j, max, candidates[i].cardId, id)))
  }

  lemma FinishedIs(config: AggregationConfig, slot: Slot, frames: nat)
    requires config.Valid() && frames > 0 && Supported(slot)
    ensures var ids, candidates := Ranked(StandingsOf(slot), frames), FinishSlot(config, slot, frames).candidates;
      && |candidates| == Min(|ids|, config.maxCandidates)
      && forall i | 0 <= i < |candidates| ::
           && ids[i] in slot && candidates[i].cardId == ids[i]
           && (i > 0 ==> candidates[i].confidence == MeanOf(StandingsOf(slot), ids[i], frames))
           && candidates[i].distance == Some(slot[ids[i]].distanceSum / slot[ids[i]].support as real)
  {
    hide Ranked, MeanOf, TopConfidence;
    var ids := Ranked(StandingsOf(slot), frames);
    forall i | 0 <= i < |ids| ensures ids[i] in slot {
      assert ids[i] in ids;
    }
  }

  lemma OfferIs(config: AggregationConfig, minimum: real, count: nat, frames: seq<DetectionResult>, j: nat)
    requires config.Valid() && j < count && frames != [] && ObserveAll(config, Nothing(count), frames).Some?
    ensures var s := ObserveAll(config, Nothing(count), frames).value;
      && s.frames == |frames| && AllSupported(s)
      && Offers(config, frames, j, Finish(config, minimum, s).offers[j].candidates)
  {
    hide ObserveAll, FinishSlot, Ranked, Seen, Ahead, Mean, DistanceAll, DistanceOf, TallyAll, Entry, Offers;
    var max, s := config.maxCandidates, ObserveAll(config, Nothing(count), frames).value;
    SlotHolds(config, count, frames, j);
    var slot := s.slots[j];
    var ids := Ranked(StandingsOf(slot), |frames|);
    RankingIs(slot, frames, j, max);
    FinishedIs(config, slot, |frames|);
    var candidates := FinishSlot(config, slot, |frames|).candidates;
    assert Finish(config, minimum, s).offers[j].candidates == candidates;
    forall i | 0 <= i < |candidates|
      ensures Seen(frames, j, max, ids[i])
      ensures MeanOf(StandingsOf(slot), ids[i], |frames|) == Mean(frames, j, max, ids[i])
      ensures slot[ids[i]].distanceSum / slot[ids[i]].support as real == MeanDistance(frames, j, max, ids[i])
    {
      assert ids[i] in ids;
      MeansAgree(slot, frames, j, max, ids[i]);
      SumsAgree(config, count, frames, j, ids[i]);
    }
    OffersThese(config, frames, j, ids, candidates);
  }

  lemma OffersThese(
    config: AggregationConfig, frames: seq<DetectionResult>, j: nat, ids: seq<string>, candidates: seq<OfferCandidate>)
    requires frames != [] && |candidates| == Min(|ids|, config.maxCandidates)
    requires forall i, k | 0 <= i < k < |ids| :: Ahead(frames, j, config.maxCandidates, ids[i], ids[k])
    requires forall id :: id in ids <==> Seen(frames, j, config.maxCandidates, id)
    requires forall i | 0 <= i < |candidates| ::
      && candidates[i].cardId == ids[i]
      && (i > 0 ==> candidates[i].confidence == Mean(frames, j, config.maxCandidates, ids[i]))
      && candidates[i].distance == Some(MeanDistance(frames, j, config.maxCandidates, ids[i]))
    ensures Offers(config, frames, j, candidates)
  {
    hide Seen, Ahead, Mean, MeanDistance;
    var max := config.maxCandidates;
    forall i | 0 <= i < |candidates| ensures Seen(frames, j, max, candidates[i].cardId) {
      assert ids[i] in ids;
    }
    forall id | Seen(frames, j, max, id)
      ensures (exists i :: 0 <= i < |candidates| && candidates[i].cardId == id)
           || (|candidates| == max && forall i | 0 <= i < |candidates| :: Ahead(frames, j, max, candidates[i].cardId, id))
    {
      assert id in ids;
      var k :| 0 <= k < |ids| && ids[k] == id;
      assert k < |candidates| ==> candidates[k].cardId == id;
    }
  }

  lemma SumsAgree(config: AggregationConfig, count: nat, frames: seq<DetectionResult>, j: nat, id: string)
    requires j < count && frames != [] && ObserveAll(config, Nothing(count), frames).Some?
    requires id in ObserveAll(config, Nothing(count), frames).value.slots[j]
    ensures var evidence := ObserveAll(config, Nothing(count), frames).value.slots[j][id];
      evidence.support > 0
      && evidence.distanceSum / evidence.support as real == MeanDistance(frames, j, config.maxCandidates, id)
  {
    hide ObserveAll, DistanceAll, TallyAll;
    AccumulatedDistance(config, Nothing(count), frames, j, id);
    AccumulatedTally(config, count, frames, j, id);
  }

  // Where an offer comes from.

  /** The source of the first frame whose slot lists the card. */
  function FirstSource(frames: seq<DetectionResult>, j: nat, max: nat, id: string): Option<OfferSource> {
    if frames == [] then None
    else if j < |frames[0].offers| && Lists(Top(frames[0].offers[j], max), id) then Some(frames[0].offers[j].source)
    else FirstSource(frames[1..], j, max, id)
  }

  function SourceIn(slot: Slot, id: string): Option<OfferSource> {
    if id in slot then Some(slot[id].source) else None
  }

  function Earlier(first: Option<OfferSource>, later: Option<OfferSource>): Option<OfferSource> {
    if first.Some? then first else later
  }

  lemma AddCandidateSource(slot: Slot, c: OfferCandidate, source: OfferSource, id: string)
    requires AddCandidate(slot, c, source).1.None?
    ensures SourceIn(AddCandidate(slot, c, source).0, id)
         == Earlier(SourceIn(slot, id), if c.cardId == id then Some(source) else None)
  {
    hide Trim;
  }

  lemma {:induction false} AddCandidatesSource(
    slot: Slot, candidates: seq<OfferCandidate>, source: OfferSource, id: string)
    requires AddCandidates(slot, candidates, source).1.None?
    ensures SourceIn(AddCandidates(slot, candidates, source).0, id)
         == Earlier(SourceIn(slot, id), if Lists(candidates, id) then Some(source) else None)
    decreases candidates
  {
    hide AddCandidate, SourceIn;
    if candidates != [] {
      AddCandidateSource(slot, candidates[0], source, id);
      AddCandidatesSource(AddCandidate(slot, candidates[0], source).0, candidates[1..], source, id);
      ListsFirst(candidates, id);
    }
  }

  lemma {:induction false} AddOffersSource(
    slots: seq<Slot>, offers: seq<DetectedOffer>, max: nat, from: nat, j: nat, id: string)
    requires |slots| == |offers| && from <= |slots| && j < |slots| && AddOffers(slots, offers, max, from).1.None?
    ensures SourceIn(AddOffers(slots, offers, max, from).0[j], id)
         == if j < from then SourceIn(slots[j], id)
            else Earlier(SourceIn(slots[j], id), if Lists(Top(offers[j], max), id) then Some(offers[j].source) else None)
    decreases |slots| - from
  {
    hide AddCandidates, SourceIn, Top, Lists;
    if from < |slots| {
      var added := AddCandidates(slots[from], Top(offers[from], max), offers[from].source);
      AddCandidatesSource(slots[from], Top(offers[from], max), offers[from].source, id);
      AddOffersSource(slots[from := added.0], offers, max, from + 1, j, id);
    }
  }

  lemma {:induction false} AccumulatedSource(
    config: AggregationConfig, s: Accumulated, frames: seq<DetectionResult>, j: nat, id: string)
    requires j < |s.slots| && ObserveAll(config, s, frames).Some?
    ensures SourceIn(ObserveAll(config, s, frames).value.slots[j], id)
         == Earlier(SourceIn(s.slots[j], id), FirstSource(frames, j, config.maxCandidates, id))
    decreases frames
  {
    hide AddOffers, SourceIn, Top, Lists;
    if frames != [] {
      AddOffersSource(s.slots, frames[0].offers, config.maxCandidates, 0, j, id);
      AccumulatedSource(config, Observe(config, s, frames[0]).0, frames[1..], j, id);
    }
  }

  lemma LeaderSource(config: AggregationConfig, slot: Slot, frames: nat)
    requires config.Valid() && frames > 0 && Supported(slot)
    ensures var offer := FinishSlot(config, slot, frames);
      if offer.candidates == [] then offer.source.ScreenCapture?
      else Some(offer.source) == SourceIn(slot, offer.candidates[0].cardId)
  {
    hide Ranked, MeanOf, TopConfidence;
    var ids := Ranked(StandingsOf(slot), frames);
    if ids != [] {
      assert ids[0] in ids;
    }
  }

  /** An offer has the source of the frame that first listed its leader; an empty one counts as a screen capture. */
  lemma OfferSourceIs(config: AggregationConfig, minimum: real, count: nat, frames: seq<DetectionResult>, j: nat)
    requires config.Valid() && j < count && frames != [] && ObserveAll(config, Nothing(count), frames).Some?
    ensures var s := ObserveAll(config, Nothing(count), frames).value;
      && s.frames == |frames| && AllSupported(s)
      && var offer := Finish(config, minimum, s).offers[j];
      if offer.candidates == [] then offer.source.ScreenCapture?
      else Some(offer.source) == FirstSource(frames, j, config.maxCandidates, offer.candidates[0].cardId)
  {
    hide ObserveAll, FinishSlot, FirstSource;
    var s := ObserveAll(config, Nothing(count), frames).value;
    SlotHolds(config, count, frames, j);
    LeaderSource(config, s.slots[j], |frames|);
    var offer := FinishSlot(config, s.slots[j], |frames|);
    assert Finish(config, minimum, s).offers[j] == offer;
    if offer.candidates != [] {
      AccumulatedSource(config, Nothing(count), frames, j, offer.candidates[0].cardId);
    }
  }
}
