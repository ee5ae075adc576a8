/** The parser's output is well bracketed on every sequence of lines and gate calls. */
module ParserBrackets {
  import opened Prelude
  import opened ArenaState
  import opened LineGrammar
  import opened LogParser

  /** Everything a caller can do to a parser. */
  datatype ParserInput = Line(line: RawLogLine) | EnableGate | DisableGate

  /** One input with the flags before it and what it emitted. */
  datatype ParserStep = ParserStep(before: ParserState, input: ParserInput, after: ParserState, events: seq<GameEvent>)

  function Feed(p: ParserState, input: ParserInput): ParserStep {
    match input
    case Line(line) => ParserStep(p, input, Parse(p, line).0, Parse(p, line).1)
    case EnableGate => ParserStep(p, input, p.(picksEnabled := true), [])
    case DisableGate => ParserStep(p, input, p.(picksEnabled := false), [])
  }

  /** One input to the parser as the program keeps it. */
  method FeedParser(parser: HearthstoneLogParser, input: ParserInput) returns (events: seq<GameEvent>)
    modifies parser
    ensures parser.Flags() == Feed(old(parser.Flags()), input).after
    ensures events == Feed(old(parser.Flags()), input).events
  {
    hide Parse;
    match input {
      case Line(line) =>
        events := parser.ParseLine(line);
      case EnableGate =>
        parser.EnablePicks();
        events := [];
      case DisableGate =>
        parser.DisablePicks();
        events := [];
    }
  }

  function Trace(p: ParserState, inputs: seq<ParserInput>): (r: seq<ParserStep>)
    ensures |r| == |inputs|
    decreases inputs
  {
    if inputs == [] then []
    else
      var step := Feed(p, inputs[0]);
      [step] + Trace(step.after, inputs[1..])
  }

  predicate Emits(step: ParserStep, test: GameEvent -> bool) {
    exists event | event in step.events :: test(event)
  }

  predicate IsSnapshotStart(event: GameEvent) { event.ArenaDeckSnapshotStarted? }

  predicate IsSnapshotEnd(event: GameEvent) { event.ArenaDeckSnapshotCompleted? || event.ArenaRunStarted? }

  predicate IsSnapshotBody(event: GameEvent) { event.ArenaDeckSnapshotCard? || event.ArenaDeckSnapshotCompleted? }

  predicate IsBoundaryEvent(event: GameEvent) { event.ArenaRunStarted? || event.ArenaDeckSnapshotStarted? }

  predicate IsPick(event: GameEvent) { event.ArenaPick? }

  function Classified(step: ParserStep): Option<ArenaLine> {
    if step.input.Line? && step.input.line.component.Arena? then Some(ClassifyArena(step.input.line.message)) else None
  }

  predicate IsRedraftBegin(step: ParserStep) {
    Classified(step) == Some(RedraftBegin)
  }

  /** What opens the pick gate: a confirmed hero, a Redraft boundary, a snapshot closed by a drafting mode,
      or the caller. */
  predicate Opens(step: ParserStep) {
    || step.input.EnableGate?
    || IsRedraftBegin(step)
    || (Classified(step).Some? && Classified(step).value.HeroChosen?)
    || (Emits(step, IsSnapshotEnd) && Classified(step).Some? && Classified(step).value.ModeSet?
        && (Classified(step).value.mode == "DRAFTING" || Classified(step).value.mode == "REDRAFTING"))
  }

  lemma OtherComponentKinds(p: ParserState, line: RawLogLine)
    requires !line.component.Arena?
    ensures Parse(p, line).0 == p
    ensures forall event | event in Parse(p, line).1 ::
      event.GameModeSeen? || event.GameStarted? || event.GameEnded? || event.FriendlyCardZoneChanged?
  {
    hide ClassifyZone, Text.Contains, Text.Upper, Text.SameIgnoringCase;
  }

  // Snapshots.

  /** One step's effect on the snapshot flag. */
  lemma SnapshotStep(p: ParserState, input: ParserInput)
    ensures var step := Feed(p, input);
      && (Emits(step, IsSnapshotBody) ==> p.readingDeck)
      && (step.after.readingDeck ==> Emits(step, IsSnapshotStart) || (p.readingDeck && !Emits(step, IsSnapshotEnd)))
      && !(Emits(step, IsSnapshotStart) && Emits(step, IsSnapshotBody))
  {
    hide ClassifyArena, IsRealCardId;
    var step := Feed(p, input);
    if input.Line? {
      if input.line.component.Arena? {
        if step.events != [] {
          assert step.events[0] in step.events;
        }
      } else {
        OtherComponentKinds(p, input.line);
      }
    }
  }

  /** The snapshot opened by step `i` is still open before step `end`. */
  ghost predicate OpenSince(steps: seq<ParserStep>, i: nat, end: nat) {
    && i < end <= |steps| && Emits(steps[i], IsSnapshotStart)
    && forall j | i < j < end :: !Emits(steps[j], IsSnapshotEnd)
  }

  /** The flags before step `k` of a trace. */
  function FlagsBefore(p: ParserState, steps: seq<ParserStep>, k: nat): ParserState
    requires k <= |steps|
  {
    if k == 0 then p else steps[k - 1].after
  }

  lemma {:induction false} TraceLinks(p: ParserState, inputs: seq<ParserInput>, k: nat)
    requires k < |inputs|
    ensures var steps := Trace(p, inputs);
      steps[k] == Feed(FlagsBefore(p, steps, k), inputs[k])
    decreases k
  {
    if k > 0 {
      var next := Feed(p, inputs[0]).after;
      TraceLinks(next, inputs[1..], k - 1);
      assert Trace(p, inputs)[1..] == Trace(next, inputs[1..]);
      assert FlagsBefore(next, Trace(next, inputs[1..]), k - 1) == FlagsBefore(p, Trace(p, inputs), k);
    }
  }

  lemma {:induction false} ReadingMeansOpen(inputs: seq<ParserInput>, k: nat)
    requires k <= |inputs|
    ensures var steps := Trace(FRESH_PARSER, inputs);
      FlagsBefore(FRESH_PARSER, steps, k).readingDeck ==> exists i :: OpenSince(steps, i, k)
    decreases k
  {
    hide Trace, Feed, Emits;
    var steps := Trace(FRESH_PARSER, inputs);
    if k > 0 && steps[k - 1].after.readingDeck {
      TraceLinks(FRESH_PARSER, inputs, k - 1);
      var before := FlagsBefore(FRESH_PARSER, steps, k - 1);
      SnapshotStep(before, inputs[k - 1]);
      if Emits(steps[k - 1], IsSnapshotStart) {
        assert OpenSince(steps, k - 1, k);
      } else {
        ReadingMeansOpen(inputs, k - 1);
        var i :| OpenSince(steps, i, k - 1);
        assert OpenSince(steps, i, k);
      }
    }
  }

  /** Every snapshot card and completion follows an open snapshot start, with no completion and no run start
      in between. */
  lemma SnapshotsAreBracketed(inputs: seq<ParserInput>, k: nat)
    requires k < |inputs|
    ensures var steps := Trace(FRESH_PARSER, inputs);
      Emits(steps[k], IsSnapshotBody) ==> exists i :: OpenSince(steps, i, k)
  {
    TraceLinks(FRESH_PARSER, inputs, k);
    SnapshotStep(FlagsBefore(FRESH_PARSER, Trace(FRESH_PARSER, inputs), k), inputs[k]);
    ReadingMeansOpen(inputs, k);
  }

  // Picks.

  predicate EmitsBoundary(step: ParserStep) { Emits(step, IsBoundaryEvent) }

  /** One step's effect on the pick gate and the pending Redraft boundary. */
  lemma GateStep(p: ParserState, input: ParserInput)
    ensures var step := Feed(p, input);
      && (step.after.redraftPending ==> !EmitsBoundary(step) && (p.redraftPending || IsRedraftBegin(step)))
      && (step.after.picksEnabled ==>
            !EmitsBoundary(step) && !input.DisableGate? && (p.picksEnabled || p.redraftPending || Opens(step)))
      && (Opens(step) ==> step.after.picksEnabled)
      && (!EmitsBoundary(step) && !input.DisableGate? && p.picksEnabled ==> step.after.picksEnabled)
      && (Emits(step, IsPick) ==> (p.picksEnabled || p.redraftPending) && !EmitsBoundary(step))
  {
    hide ClassifyArena, IsRealCardId;
    var step := Feed(p, input);
    if input.Line? {
      if input.line.component.Arena? {
        if step.events != [] {
          assert step.events[0] in step.events;
        }
      } else {
        OtherComponentKinds(p, input.line);
      }
    }
  }

  /** An opener with no emitted run or snapshot start after it, before step `end`. */
  ghost predicate OpenedBefore(steps: seq<ParserStep>, end: nat) {
    exists i | 0 <= i < end <= |steps| :: Opens(steps[i]) && NoBoundaryBetween(steps, i, end)
  }

  ghost predicate NoBoundaryBetween(steps: seq<ParserStep>, i: nat, end: nat)
    requires i < end <= |steps|
  {
    forall j | i < j < end :: !EmitsBoundary(steps[j])
  }

  lemma {:induction false} GateMeansOpened(inputs: seq<ParserInput>, k: nat)
    requires k <= |inputs|
    ensures var steps := Trace(FRESH_PARSER, inputs);
      var before := FlagsBefore(FRESH_PARSER, steps, k);
      before.picksEnabled || before.redraftPending ==> OpenedBefore(steps, k)
    decreases k
  {
    hide Trace, Feed;
    var steps := Trace(FRESH_PARSER, inputs);
    var before := FlagsBefore(FRESH_PARSER, steps, k);
    if k > 0 && (before.picksEnabled || before.redraftPending) {
      TraceLinks(FRESH_PARSER, inputs, k - 1);
      GateStep(FlagsBefore(FRESH_PARSER, steps, k - 1), inputs[k - 1]);
      if Opens(steps[k - 1]) {
        assert NoBoundaryBetween(steps, k - 1, k);
      } else {
        GateMeansOpened(inputs, k - 1);
        var i :| 0 <= i < k - 1 && Opens(steps[i]) && NoBoundaryBetween(steps, i, k - 1);
        assert NoBoundaryBetween(steps, i, k);
      }
    }
  }

  /** Every emitted pick has an opener with no emitted run or snapshot start after it. */
  lemma PicksHaveAnOpener(inputs: seq<ParserInput>, k: nat)
    requires k < |inputs|
    ensures var steps := Trace(FRESH_PARSER, inputs);
      Emits(steps[k], IsPick) ==> OpenedBefore(steps, k)
  {
    TraceLinks(FRESH_PARSER, inputs, k);
    GateStep(FlagsBefore(FRESH_PARSER, Trace(FRESH_PARSER, inputs), k), inputs[k]);
    GateMeansOpened(inputs, k);
  }

  // Completeness: an opener that nothing closes keeps the gate open.

  ghost predicate NeverClosed(steps: seq<ParserStep>, i: nat, end: nat)
    requires i < end <= |steps|
  {
    forall j | i < j < end :: !EmitsBoundary(steps[j]) && !steps[j].input.DisableGate?
  }

  lemma FedInput(p: ParserState, input: ParserInput)
    ensures Feed(p, input).input == input && Feed(p, input).before == p
  {
  }

  lemma {:induction false} OpenerKeepsGate(inputs: seq<ParserInput>, i: nat, k: nat)
    requires i < k <= |inputs| && Opens(Trace(FRESH_PARSER, inputs)[i])
    requires NeverClosed(Trace(FRESH_PARSER, inputs), i, k)
    ensures FlagsBefore(FRESH_PARSER, Trace(FRESH_PARSER, inputs), k).picksEnabled
    decreases k
  {
    hide Trace, Feed, Opens, EmitsBoundary;
    var steps := Trace(FRESH_PARSER, inputs);
    TraceLinks(FRESH_PARSER, inputs, k - 1);
    FedInput(FlagsBefore(FRESH_PARSER, steps, k - 1), inputs[k - 1]);
    GateStep(FlagsBefore(FRESH_PARSER, steps, k - 1), inputs[k - 1]);
    if i < k - 1 {
      assert NeverClosed(steps, i, k - 1);
      OpenerKeepsGate(inputs, i, k - 1);
    }
  }

  /** After an opener that nothing has closed, a choice of a real card is a pick. */
  lemma OpenGateTakesChoices(inputs: seq<ParserInput>, i: nat, k: nat, card: CardId)
    requires i < k < |inputs| && Opens(Trace(FRESH_PARSER, inputs)[i])
    requires NeverClosed(Trace(FRESH_PARSER, inputs), i, k)
    requires Classified(Trace(FRESH_PARSER, inputs)[k]) == Some(ClientChoice(card)) && IsRealCardId(card)
    ensures Trace(FRESH_PARSER, inputs)[k].events == [ArenaPick(card)]
  {
    hide Trace, Feed, Opens, EmitsBoundary, Classified;
    OpenerKeepsGate(inputs, i, k);
    TraceLinks(FRESH_PARSER, inputs, k);
    ChoiceStep(FlagsBefore(FRESH_PARSER, Trace(FRESH_PARSER, inputs), k), inputs[k], card);
  }

  // Closing the gate.

  /** A closed gate holds against the next choice if and only if no Redraft boundary is pending. */
  lemma PendingRedraftOverridesDisable(p: ParserState, card: CardId)
    requires IsRealCardId(card)
    ensures var events := ParseArena(Feed(p, DisableGate).after, ClientChoice(card)).1;
      && (events == [] <==> !p.redraftPending)
      && (events == [ArenaPick(card)] <==> p.redraftPending)
  {
    hide IsRealCardId;
  }

  /** What ends the pending state of a Redraft boundary without closing the gate. */
  predicate Settles(step: ParserStep) {
    match Classified(step)
    case Some(ClientChoice(_)) => true
    case Some(ModeSet(mode)) => mode == "REDRAFTING"
    case _ => false
  }

  /** The next choice of a real card is a pick. */
  predicate TakesChoices(p: ParserState) { p.picksEnabled || p.redraftPending }

  lemma ExactStep(p: ParserState, input: ParserInput)
    ensures var step := Feed(p, input);
      && (step.after.redraftPending <==>
            IsRedraftBegin(step) || (p.redraftPending && !EmitsBoundary(step) && !Settles(step)))
      && (TakesChoices(step.after) <==>
            || Opens(step)
            || (!EmitsBoundary(step) && if input.DisableGate? then p.redraftPending else TakesChoices(p)))
      && !(Opens(step) && EmitsBoundary(step))
  {
    hide ClassifyArena, IsRealCardId;
    var step := Feed(p, input);
    if input.Line? {
      if input.line.component.Arena? {
        if step.events != [] {
          assert step.events[0] in step.events;
        }
      } else {
        OtherComponentKinds(p, input.line);
      }
    }
  }

  /** A Redraft boundary before `end` that no emitted start, choice or Redraft mode has followed. */
  ghost predicate RedraftUnsettled(steps: seq<ParserStep>, end: nat) {
    exists i | 0 <= i < end <= |steps| :: IsRedraftBegin(steps[i]) && Unsettled(steps, i, end)
  }

  ghost predicate Unsettled(steps: seq<ParserStep>, i: nat, end: nat)
    requires i < end <= |steps|
  {
    forall j | i < j < end :: !EmitsBoundary(steps[j]) && !Settles(steps[j])
  }

  lemma {:induction false} PendingIff(inputs: seq<ParserInput>, k: nat)
    requires k <= |inputs|
    ensures var steps := Trace(FRESH_PARSER, inputs);
      FlagsBefore(FRESH_PARSER, steps, k).redraftPending <==> RedraftUnsettled(steps, k)
    decreases k
  {
    hide Trace, Feed, EmitsBoundary, Settles, IsRedraftBegin;
    var steps := Trace(FRESH_PARSER, inputs);
    if k > 0 {
      TraceLinks(FRESH_PARSER, inputs, k - 1);
      ExactStep(FlagsBefore(FRESH_PARSER, steps, k - 1), inputs[k - 1]);
      PendingIff(inputs, k - 1);
      if RedraftUnsettled(steps, k) {
        var i :| 0 <= i < k && IsRedraftBegin(steps[i]) && Unsettled(steps, i, k);
        assert i < k - 1 ==> Unsettled(steps, i, k - 1);
      }
      if IsRedraftBegin(steps[k - 1]) {
        assert Unsettled(steps, k - 1, k);
      } else if RedraftUnsettled(steps, k - 1) && !EmitsBoundary(steps[k - 1]) && !Settles(steps[k - 1]) {
        var i :| 0 <= i < k - 1 && IsRedraftBegin(steps[i]) && Unsettled(steps, i, k - 1);
        assert Unsettled(steps, i, k);
      }
    }
  }

  /** An opener after step `d` with no emitted start after it, before step `end`. */
  ghost predicate ReopenedAfter(steps: seq<ParserStep>, d: nat, end: nat) {
    exists i | d < i < end <= |steps| :: Opens(steps[i]) && NoBoundaryBetween(steps, i, end)
  }

  /** Step `d` closes the gate, and no later step before `end` does. */
  predicate LastDisable(inputs: seq<ParserInput>, d: nat, end: nat) {
    && d < end <= |inputs| && inputs[d].DisableGate?
    && forall j | d < j < end :: !inputs[j].DisableGate?
  }

  lemma {:induction false} ReopensIff(inputs: seq<ParserInput>, d: nat, k: nat)
    requires LastDisable(inputs, d, k)
    ensures var steps := Trace(FRESH_PARSER, inputs);
      TakesChoices(FlagsBefore(FRESH_PARSER, steps, k)) <==>
        ReopenedAfter(steps, d, k) || (RedraftUnsettled(steps, d) && NoBoundaryBetween(steps, d, k))
    decreases k
  {
    hide Trace, Feed, EmitsBoundary, Opens, RedraftUnsettled, TakesChoices;
    var steps := Trace(FRESH_PARSER, inputs);
    TraceLinks(FRESH_PARSER, inputs, k - 1);
    ExactStep(FlagsBefore(FRESH_PARSER, steps, k - 1), inputs[k - 1]);
    if d == k - 1 {
      PendingIff(inputs, d);
      DisableOpensNothing(FlagsBefore(FRESH_PARSER, steps, d), inputs[d]);
    } else {
      ReopensIff(inputs, d, k - 1);
      ReopenedStep(steps, d, k - 1);
    }
  }

  lemma DisableOpensNothing(p: ParserState, input: ParserInput)
    requires input.DisableGate?
    ensures !Opens(Feed(p, input)) && !EmitsBoundary(Feed(p, input))
  {
  }

  lemma ReopenedStep(steps: seq<ParserStep>, d: nat, k: nat)
    requires d < k < |steps| && !(Opens(steps[k]) && EmitsBoundary(steps[k]))
    ensures ReopenedAfter(steps, d, k + 1) <==> Opens(steps[k]) || (ReopenedAfter(steps, d, k) && !EmitsBoundary(steps[k]))
    ensures NoBoundaryBetween(steps, d, k + 1) <==> NoBoundaryBetween(steps, d, k) && !EmitsBoundary(steps[k])
  {
    hide EmitsBoundary, Opens;
    if Opens(steps[k]) {
      assert NoBoundaryBetween(steps, k, k + 1);
    }
    if ReopenedAfter(steps, d, k) && !EmitsBoundary(steps[k]) {
      var i :| d < i < k && Opens(steps[i]) && NoBoundaryBetween(steps, i, k);
      assert NoBoundaryBetween(steps, i, k + 1);
    }
    if ReopenedAfter(steps, d, k + 1) && !Opens(steps[k]) {
      var i :| d < i < k + 1 && Opens(steps[i]) && NoBoundaryBetween(steps, i, k + 1);
      assert NoBoundaryBetween(steps, i, k);
    }
  }

  lemma ChoiceStep(p: ParserState, input: ParserInput, card: CardId)
    requires IsRealCardId(card) && Classified(Feed(p, input)) == Some(ClientChoice(card))
    ensures Feed(p, input).events == if TakesChoices(p) then [ArenaPick(card)] else []
  {
    hide ClassifyArena, IsRealCardId;
  }

  /** After the last closing of the gate, a choice of a real card is a pick if and only if something opened the gate
      since, or a Redraft boundary was unsettled when it was closed, with no emitted start in between. */
  lemma ChoiceAfterDisableIff(inputs: seq<ParserInput>, d: nat, k: nat, card: CardId)
    requires k < |inputs| && LastDisable(inputs, d, k) && IsRealCardId(card)
    requires Classified(Trace(FRESH_PARSER, inputs)[k]) == Some(ClientChoice(card))
    ensures var steps := Trace(FRESH_PARSER, inputs);
      && steps[k].events in {[], [ArenaPick(card)]}
      && (steps[k].events == [ArenaPick(card)] <==>
            ReopenedAfter(steps, d, k) || (RedraftUnsettled(steps, d) && NoBoundaryBetween(steps, d, k)))
  {
    hide Trace, Feed, Opens, EmitsBoundary, Classified, RedraftUnsettled, ReopenedAfter, NoBoundaryBetween, IsRealCardId;
    var steps := Trace(FRESH_PARSER, inputs);
    ReopensIff(inputs, d, k);
    TraceLinks(FRESH_PARSER, inputs, k);
    ChoiceStep(FlagsBefore(FRESH_PARSER, steps, k), inputs[k], card);
  }
}
