/** What attaching to a log session and polling it compute, as functions on file contents. */
module ObserverSpec {
  import opened Prelude
  import opened ArenaState
  import opened ReducerSpec
  import opened LogRecords
  import opened LineGrammar
  import opened LogParser
  import opened LogReader
  import opened KWayMerge

  /** A session directory name and the checksum used to label its records. */
  datatype Session = Session(id: string, hash: string -> nat)

  /** One log file as a poll sees it. */
  datatype FileView = FileView(identity: nat, bytes: string)

  type Files = map<Component, FileView>

  const COMPONENTS: seq<Component> :=
    [Component.LoadingScreen, Component.Power, Component.Zone, Component.Arena, Component.Asset]

  lemma ComponentRanks()
    ensures |COMPONENTS| == 5 && forall i | 0 <= i < 5 :: COMPONENTS[i].Rank() == i
    ensures forall c: Component :: c.Rank() < 5 && COMPONENTS[c.Rank()] == c
  {
  }

  // Replaying lines.

  /** What a sequence of lines has been reduced to. */
  datatype Replayed = Replayed(
    parser: ParserState, reducer: Tracked, lastOrder: Option<LineOrder>, lastSource: Option<EventSource>)

  function SourceOf(session: Session, line: RawLogLine): EventSource {
    EventSource(session.id, line.component.Filename(), line.byteOffset, session.hash(line.raw))
  }

  /** Two records of a session have the same source exactly when they start at the same place in the same file and their
      bytes have the same checksum. */
  lemma SourcesTell(session: Session, a: RawLogLine, b: RawLogLine)
    ensures SourceOf(session, a) == SourceOf(session, b) <==>
      a.component == b.component && a.byteOffset == b.byteOffset && session.hash(a.raw) == session.hash(b.raw)
  {
    assert a.component.Filename()[0] != b.component.Filename()[0] || a.component.Filename()[1] != b.component.Filename()[1]
        || a.component == b.component;
  }

  ghost function Consume(session: Session, r: Replayed, line: RawLogLine): Replayed {
    var source := SourceOf(session, line);
    var parsed := Parse(r.parser, line);
    Replayed(parsed.0, ApplySourcedLine(r.reducer, source, parsed.1), Some(OrderOf(line)), Some(source))
  }

  ghost function ConsumeAll(session: Session, r: Replayed, lines: seq<RawLogLine>): Replayed
    decreases lines
  {
    if lines == [] then r else ConsumeAll(session, Consume(session, r, lines[0]), lines[1..])
  }

  lemma {:induction false} ConsumeConcat(session: Session, r: Replayed, a: seq<RawLogLine>, b: seq<RawLogLine>)
    ensures ConsumeAll(session, r, a + b) == ConsumeAll(session, ConsumeAll(session, r, a), b)
    decreases a
  {
    hide Consume;
    if a == [] {
      assert a + b == b;
    } else {
      assert (a + b)[0] == a[0] && (a + b)[1..] == a[1..] + b;
      ConsumeConcat(session, Consume(session, r, a[0]), a[1..], b);
    }
  }

  /** The order and the source remembered are those of the last line consumed. */
  lemma {:induction false} LastConsumed(session: Session, r: Replayed, lines: seq<RawLogLine>)
    ensures var after := ConsumeAll(session, r, lines);
      if lines == [] then after == r
      else
        var last := lines[|lines| - 1];
        after.lastOrder == Some(OrderOf(last)) && after.lastSource == Some(SourceOf(session, last))
    decreases lines
  {
    hide Parse, ApplySourcedLine, SourceOf;
    if lines != [] {
      LastConsumed(session, Consume(session, r, lines[0]), lines[1..]);
    }
  }

  ghost function FreshReplay(slots: Option<U16>): Replayed {
    Replayed(FRESH_PARSER, Tracked(NewReducer(slots), {}), None, None)
  }

  // Cursors.

  type Cursors = map<Component, LogCursor>

  function CursorAt(cursors: Cursors, c: Component): LogCursor {
    if c in cursors then cursors[c] else START_CURSOR
  }

  predicate CursorsFit(files: Files, cursors: Cursors) {
    forall c | c in files :: CursorAt(cursors, c).byteOffset <= |files[c].bytes|
  }

  /** The event lines of one component that a read from its cursor would deliver. */
  function StreamOf(files: Files, cursors: Cursors, c: Component): seq<RawLogLine>
    requires CursorsFit(files, cursors)
  {
    if c.CanEmitEvents() && c in files then PendingEvents(c, files[c].bytes, CursorAt(cursors, c)) else []
  }

  function PendingStreams(files: Files, cursors: Cursors): (r: Streams)
    requires CursorsFit(files, cursors)
    ensures |r| == 5
  {
    seq(5, i requires 0 <= i < 5 => StreamOf(files, cursors, COMPONENTS[i]))
  }

  lemma {:induction false} CandidatesTagged(component: Component, records: seq<Record>, before: nat, line: RawLogLine)
    ensures line in Candidates(component, records, before) ==> line.component == component
    decreases records
  {
    hide MightEmitEvent, SplitTimestamp;
    if records != [] {
      CandidatesTagged(component, records[1..], before + 1, line);
    }
  }

  lemma PendingTagged(files: Files, cursors: Cursors)
    requires CursorsFit(files, cursors)
    ensures Tagged(PendingStreams(files, cursors))
  {
    hide Candidates, Records;
    ComponentRanks();
    forall c, line | 0 <= c < 5 && line in PendingStreams(files, cursors)[c] ensures line.component.Rank() == c {
      var component := COMPONENTS[c];
      assert component in files;
      var cursor := CursorAt(cursors, component);
      CandidatesTagged(component, Records(files[component].bytes, cursor.byteOffset), cursor.lineNumber, line);
    }
  }

  /** Inert components jump to the last newline without counting lines. */
  function NextCursor(c: Component, bytes: string, cursor: LogCursor): (r: LogCursor)
    requires cursor.byteOffset <= |bytes|
    ensures r.byteOffset <= |bytes|
  {
    if c.CanEmitEvents() then EndCursor(bytes, cursor) else LogCursor(LastLineEnd(bytes), 0)
  }

  function AdvancedCursors(files: Files, cursors: Cursors): Cursors
    requires CursorsFit(files, cursors)
  {
    map c | c in files :: NextCursor(c, files[c].bytes, CursorAt(cursors, c))
  }

  // File evidence.

  const CHECKPOINT_BYTES: nat := 64

  /** The last bytes before a durable cursor. */
  datatype TailWitness = TailWitness(start: nat, bytes: string)

  function WitnessAt(bytes: string, cursor: nat): TailWitness
    requires cursor <= |bytes|
  {
    var start := Max(cursor - CHECKPOINT_BYTES, 0);
    TailWitness(start, bytes[start..cursor])
  }

  predicate WitnessMatches(bytes: string, witness_: TailWitness) {
    var end := witness_.start + |witness_.bytes|;
    end <= |bytes| && bytes[witness_.start..end] == witness_.bytes
  }

  function Witnesses(files: Files, cursors: Cursors): map<Component, TailWitness>
    requires files.Keys <= cursors.Keys && CursorsFit(files, cursors)
  {
    map c | c in files && cursors[c].byteOffset > 0 :: WitnessAt(files[c].bytes, cursors[c].byteOffset)
  }

  // Attaching and polling.

  datatype Observed = Observed(
    replay: Replayed,
    cursors: Cursors,
    identities: map<Component, nat>,
    witnesses: map<Component, TailWitness>)

  datatype AttachError = NoReadableLogs

  datatype PollError =
    | Disappeared(component: Component)
    | Replaced(component: Component)
    | Appeared(component: Component)
    | Truncated(component: Component)
    | ChangedBeforeCursor(component: Component)
    | OutOfOrder

  ghost function Drained(session: Session, r: Replayed, files: Files, cursors: Cursors): Replayed
    requires CursorsFit(files, cursors)
  {
    ConsumeAll(session, r, PendingMerged(files, cursors))
  }

  /** The complete-history attach. */
  ghost function AttachFull(session: Session, slots: Option<U16>, files: Files): Result<Observed, AttachError> {
    if files == map[] then Err(NoReadableLogs)
    else
      var cursors := AdvancedCursors(files, map[]);
      Ok(Observed(
        Drained(session, FreshReplay(slots), files, map[]), cursors,
        map c | c in files :: files[c].identity, Witnesses(files, cursors)))
  }

  function FaultAt(o: Observed, files: Files, c: Component): Option<PollError> {
    if c !in files then (if c in o.identities then Some(Disappeared(c)) else None)
    else if c !in o.identities then Some(Appeared(c))
    else if o.identities[c] != files[c].identity then Some(Replaced(c))
    else if |files[c].bytes| < CursorAt(o.cursors, c).byteOffset then Some(Truncated(c))
    else if c in o.witnesses && !WitnessMatches(files[c].bytes, o.witnesses[c]) then Some(ChangedBeforeCursor(c))
    else None
  }

  /** The first component, in the required order, that can no longer be tailed. */
  function FirstFault(o: Observed, files: Files, from: nat): (r: Option<PollError>)
    requires from <= 5
    ensures r.None? ==> forall i | from <= i < 5 :: FaultAt(o, files, COMPONENTS[i]).None?
    decreases 5 - from
  {
    if from == 5 then None
    else if FaultAt(o, files, COMPONENTS[from]).Some? then FaultAt(o, files, COMPONENTS[from])
    else FirstFault(o, files, from + 1)
  }

  lemma NoFaultFits(o: Observed, files: Files)
    requires FirstFault(o, files, 0).None?
    ensures CursorsFit(files, o.cursors)
    ensures forall c | c in files :: c in o.identities && o.identities[c] == files[c].identity
    ensures forall c | c in o.identities :: c in files
  {
    ComponentRanks();
    forall c: Component
      ensures FaultAt(o, files, c).None?
      ensures c in files ==>
        && c in o.identities && o.identities[c] == files[c].identity
        && CursorAt(o.cursors, c).byteOffset <= |files[c].bytes|
      ensures c in o.identities ==> c in files
    {
      assert COMPONENTS[c.Rank()] == c;
    }
  }

  /** Every consumed line is checked against the one consumed before it. */
  predicate InOrder(last: Option<LineOrder>, lines: seq<RawLogLine>)
    decreases lines
  {
    lines == []
    || (!(last.Some? && Before(OrderOf(lines[0]), last.value)) && InOrder(Some(OrderOf(lines[0])), lines[1..]))
  }

  ghost function PendingMerged(files: Files, cursors: Cursors): seq<RawLogLine>
    requires CursorsFit(files, cursors)
  {
    PendingTagged(files, cursors);
    Merge(PendingStreams(files, cursors))
  }

  ghost function PollFault(o: Observed, files: Files): Option<PollError> {
    var fault := FirstFault(o, files, 0);
    if fault.Some? then fault
    else
      NoFaultFits(o, files);
      if InOrder(o.replay.lastOrder, PendingMerged(files, o.cursors)) then None else Some(OutOfOrder)
  }

  ghost function PolledState(session: Session, o: Observed, files: Files): Observed
    requires CursorsFit(files, o.cursors)
  {
    var cursors := o.cursors + AdvancedCursors(files, o.cursors);
    Observed(Drained(session, o.replay, files, o.cursors), cursors, o.identities,
             (o.witnesses - files.Keys) + Witnesses(files, cursors))
  }

  ghost function Poll(session: Session, o: Observed, files: Files): Result<Observed, PollError> {
    var fault := PollFault(o, files);
    if fault.Some? then Err(fault.value)
    else
      NoFaultFits(o, files);
      Ok(PolledState(session, o, files))
  }

  /** Polls of successive states of the files, all successful. */
  ghost function PollRun(session: Session, o: Observed, history: seq<Files>): Result<Observed, PollError>
    decreases history
  {
    if history == [] then Ok(o)
    else
      var next := Poll(session, o, history[0]);
      if next.Err? then next else PollRun(session, next.value, history[1..])
  }
}
