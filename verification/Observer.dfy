/** The session observer as an object: a complete-history attach and the incremental poll,
    proved against `ObserverSpec`. */
module Observer {
  import opened Prelude
  import opened ArenaState
  import opened Reducer
  import opened LogRecords
  import opened LineGrammar
  import opened LogParser
  import opened LogReader
  import opened KWayMerge
  import opened ObserverSpec

  type LogFiles = map<Component, LogFile>

  type Pending = map<Component, RawLogLine>

  type Readers = map<Component, ComponentLogReader>

  ghost function View(files: LogFiles): Files
    reads files.Values
  {
    map c | c in files :: FileView(files[c].identity, files[c].bytes)
  }

  /** One reader per present file. */
  ghost predicate ReadersOn(readers: Readers, files: LogFiles) {
    && readers.Keys == files.Keys
    && forall c | c in readers :: readers[c].component == c && readers[c].file == files[c]
  }

  ghost predicate ReadersValid(readers: Readers)
    reads readers.Values, set c | c in readers :: readers[c].file
  {
    forall c | c in readers :: readers[c].Valid()
  }

  /** Where the readers stand. */
  ghost function At(readers: Readers): Cursors
    reads readers.Values
  {
    map c | c in readers :: readers[c].cursor
  }

  /** The component whose pending line comes first. */
  method NextPendingComponent(pending: Pending) returns (next: Option<Component>)
    requires forall c | c in pending :: pending[c].component == c
    ensures next.None? <==> pending == map[]
    ensures next.Some? ==> next.value in pending
    ensures next.Some? ==> forall c | c in pending && c != next.value :: Precedes(pending[next.value], pending[c])
  {
    ComponentRanks();
    next := None;
    for i := 0 to 5
      invariant next.None? <==> forall c | c in pending :: c.Rank() >= i
      invariant next.Some? ==> next.value in pending && next.value.Rank() < i
      invariant next.Some? ==>
        forall c | c in pending && c.Rank() < i && c != next.value :: Precedes(pending[next.value], pending[c])
    {
      var c := COMPONENTS[i];
      assert forall d: Component | d.Rank() == i :: d == c;
      if c in pending {
        if next.None? {
          next := Some(c);
        } else {
          PrecedesTotal(pending[c], pending[next.value]);
          if Precedes(pending[c], pending[next.value]) {
            forall d | d in pending && d.Rank() < i && d != next.value ensures Precedes(pending[c], pending[d]) {
              PrecedesTransitive(pending[c], pending[next.value], pending[d]);
            }
            next := Some(c);
          }
        }
      }
    }
  }

  function HeadOf(pending: Pending, c: Component): Option<RawLogLine> {
    if c in pending then Some(pending[c]) else None
  }

  /** What an event reader of component `c` standing at `cursor` will still deliver. */
  function RestOf(files: Files, c: Component, cursor: LogCursor): seq<RawLogLine> {
    if c in files && c.CanEmitEvents() && cursor.byteOffset <= |files[c].bytes|
    then PendingEvents(c, files[c].bytes, cursor) else []
  }

  /** Where it will stop. */
  function EndOf(files: Files, c: Component, cursor: LogCursor): LogCursor {
    if c in files && c.CanEmitEvents() && cursor.byteOffset <= |files[c].bytes|
    then EndCursor(files[c].bytes, cursor) else START_CURSOR
  }

  /** One component's part of the merge: its stream is its pending line and what its reader will deliver; the
      reader has skipped nothing, and stands at the end when nothing is pending. */
  predicate Lane(
    stream: seq<RawLogLine>, head: Option<RawLogLine>, files: Files, c: Component, start: LogCursor, at: LogCursor)
  {
    && EndOf(files, c, at) == EndOf(files, c, start)
    && match head
       case None => stream == [] && (c in files && c.CanEmitEvents() ==> at == EndOf(files, c, start))
       case Some(line) =>
         && line.component == c && c in files && c.CanEmitEvents()
         && stream == [line] + RestOf(files, c, at)
  }

  /** What one call of a reader's `NextEventCandidate` does. */
  predicate Delivers(files: Files, c: Component, from: LogCursor, line: Option<RawLogLine>, to: LogCursor) {
    && EndOf(files, c, to) == EndOf(files, c, from)
    && match line
       case None => RestOf(files, c, from) == [] && to == EndOf(files, c, from)
       case Some(l) => RestOf(files, c, from) == [l] + RestOf(files, c, to)
  }

  function Refill(pending: Pending, c: Component, line: Option<RawLogLine>): Pending {
    if line.Some? then pending[c := line.value] else pending - {c}
  }

  lemma LaneRefills(
    stream: seq<RawLogLine>, files: Files, c: Component, start: LogCursor, from: LogCursor,
    line: Option<RawLogLine>, to: LogCursor)
    requires c in files && c.CanEmitEvents() && stream == RestOf(files, c, from)
    requires EndOf(files, c, from) == EndOf(files, c, start) && Delivers(files, c, from, line, to)
    requires forall l | l in stream :: l.component == c
    ensures Lane(stream, line, files, c, start, to)
  {
    hide RestOf, EndOf;
    if line.Some? {
      assert line.value in stream;
    }
  }

  /** The lanes of the components of rank below `n` are under way; the others are untouched. */
  ghost predicate Lanes(streams: Streams, pending: Pending, files: Files, start: Cursors, at: Cursors, n: nat) {
    && |streams| == 5 && Tagged(streams)
    && forall c: Component ::
         if c.Rank() < n
         then Lane(streams[c.Rank()], HeadOf(pending, c), files, c, CursorAt(start, c), CursorAt(at, c))
         else HeadOf(pending, c) == None && (c in files && c.CanEmitEvents() ==> CursorAt(at, c) == CursorAt(start, c))
  }

  lemma LaneOf(
    streams: Streams, pending: Pending, files: Files, start: Cursors, at: Cursors, c: Component)
    requires Lanes(streams, pending, files, start, at, 5)
    ensures |streams| == 5 && Tagged(streams) && c.Rank() < 5
    ensures Lane(streams[c.Rank()], HeadOf(pending, c), files, c, CursorAt(start, c), CursorAt(at, c))
  {
    hide Lane;
    ComponentRanks();
  }

  lemma PendingIsLeastHead(
    streams: Streams, pending: Pending, files: Files, start: Cursors, at: Cursors, next: Component)
    requires Lanes(streams, pending, files, start, at, 5) && next in pending
    requires forall c | c in pending && c != next :: Precedes(pending[next], pending[c])
    ensures next.Rank() < |streams| && streams[next.Rank()] != [] && streams[next.Rank()][0] == pending[next]
    ensures IsLeastHead(streams, next.Rank())
    ensures next in files && next.CanEmitEvents()
  {
    hide Precedes, RestOf, EndOf, Lanes;
    ComponentRanks();
    LaneOf(streams, pending, files, start, at, next);
    forall d | 0 <= d < 5 && d != next.Rank() && streams[d] != [] ensures Precedes(pending[next], streams[d][0]) {
      LaneOf(streams, pending, files, start, at, COMPONENTS[d]);
    }
  }

  lemma NothingPendingMerges(streams: Streams, pending: Pending, files: Files, start: Cursors, at: Cursors)
    requires Lanes(streams, pending, files, start, at, 5) && pending == map[]
    ensures Merge(streams) == []
    ensures forall c | c in files && c.CanEmitEvents() :: CursorAt(at, c) == EndOf(files, c, CursorAt(start, c))
  {
    hide RestOf, EndOf, Lanes, Merge;
    ComponentRanks();
    LaneOf(streams, pending, files, start, at, Component.Arena);
    forall d | 0 <= d < 5 ensures streams[d] == [] {
      LaneOf(streams, pending, files, start, at, COMPONENTS[d]);
    }
    forall c | c in files && c.CanEmitEvents() ensures CursorAt(at, c) == EndOf(files, c, CursorAt(start, c)) {
      LaneOf(streams, pending, files, start, at, c);
    }
    SizeZero(streams);
    var none := MergeCases(streams);
  }

  lemma StreamTagged(streams: Streams, c: Component)
    requires Tagged(streams) && c.Rank() < |streams|
    ensures forall l | l in streams[c.Rank()] :: l.component == c
  {
    ComponentRanks();
    forall l | l in streams[c.Rank()] ensures l.component == c {
      assert COMPONENTS[l.component.Rank()] == COMPONENTS[c.Rank()];
    }
  }

  /** Replacing a consumed line by its component's next one. */
  lemma RefillKeepsLanes(
    streams: Streams, pending: Pending, files: Files, start: Cursors, at: Cursors, c: Component,
    line: Option<RawLogLine>, to: LogCursor)
    requires Lanes(streams, pending, files, start, at, 5) && c in pending
    requires Delivers(files, c, CursorAt(at, c), line, to)
    ensures c.Rank() < |streams| && streams[c.Rank()] != []
    ensures Lanes(Pop(streams, c.Rank()), Refill(pending, c, line), files, start, at[c := to], 5)
  {
    hide RestOf, EndOf, Delivers;
    ComponentRanks();
    LaneOf(streams, pending, files, start, at, c);
    PopTagged(streams, c.Rank());
    var rest := Pop(streams, c.Rank());
    StreamTagged(rest, c);
    LaneRefills(rest[c.Rank()], files, c, CursorAt(start, c), CursorAt(at, c), line, to);
    hide Lane;
    forall d: Component ensures Lane(rest[d.Rank()], HeadOf(Refill(pending, c, line), d), files, d, CursorAt(start, d),
                                     CursorAt(at[c := to], d))
    {
      LaneOf(streams, pending, files, start, at, d);
    }
  }

  lemma FirstLane(
    streams: Streams, files: Files, start: Cursors, c: Component, line: Option<RawLogLine>, to: LogCursor)
    requires CursorsFit(files, start) && streams == PendingStreams(files, start) && Tagged(streams)
    requires c in files && c.CanEmitEvents() && Delivers(files, c, CursorAt(start, c), line, to)
    ensures Lane(streams[c.Rank()], line, files, c, CursorAt(start, c), to)
  {
    hide EndOf, Delivers, PendingEvents;
    ComponentRanks();
    assert streams[c.Rank()] == StreamOf(files, start, COMPONENTS[c.Rank()]);
    StreamTagged(streams, c);
    LaneRefills(streams[c.Rank()], files, c, CursorAt(start, c), CursorAt(start, c), line, to);
  }

  /** Reading a component's first candidate starts its lane. */
  lemma FillStartsLane(
    streams: Streams, pending: Pending, files: Files, start: Cursors, at: Cursors, c: Component,
    line: Option<RawLogLine>, to: LogCursor)
    requires CursorsFit(files, start) && streams == PendingStreams(files, start)
    requires Lanes(streams, pending, files, start, at, c.Rank()) && c in files && c.CanEmitEvents()
    requires Delivers(files, c, CursorAt(at, c), line, to)
    ensures Lanes(streams, Refill(pending, c, line), files, start, at[c := to], c.Rank() + 1)
  {
    hide Lane, Delivers, PendingStreams, Refill, HeadOf, Tagged, Component.Rank;
    RanksTell();
    FirstLane(streams, files, start, c, line, to);
    RefilledHeads(pending, c, line);
  }

  lemma RanksTell()
    ensures forall c: Component, d: Component {:trigger c.Rank(), d.Rank()} :: c.Rank() == d.Rank() ==> c == d
    ensures forall c: Component :: c.Rank() < 5
  {
  }

  lemma RefilledHeads(pending: Pending, c: Component, line: Option<RawLogLine>)
    ensures HeadOf(Refill(pending, c, line), c) == line
    ensures forall d | d != c :: HeadOf(Refill(pending, c, line), d) == HeadOf(pending, d)
  {
  }

  /** A component without an event reader has an empty lane. */
  lemma AbsentLane(
    streams: Streams, pending: Pending, files: Files, start: Cursors, at: Cursors, c: Component)
    requires CursorsFit(files, start) && streams == PendingStreams(files, start)
    requires Lanes(streams, pending, files, start, at, c.Rank()) && !(c in files && c.CanEmitEvents())
    ensures Lanes(streams, pending, files, start, at, c.Rank() + 1)
  {
    ComponentRanks();
    assert streams[c.Rank()] == StreamOf(files, start, COMPONENTS[c.Rank()]);
    assert Lane(streams[c.Rank()], None, files, c, CursorAt(start, c), CursorAt(at, c));
    hide Lane;
    forall d: Component ensures d.Rank() == c.Rank() ==> d == c {
      assert COMPONENTS[d.Rank()] == d;
    }
  }

  lemma PendingComponents(streams: Streams, pending: Pending, files: Files, start: Cursors, at: Cursors)
    requires Lanes(streams, pending, files, start, at, 5)
    ensures forall c | c in pending :: c in files && pending[c].component == c
  {
    hide Lanes, RestOf, EndOf;
    forall c | c in pending ensures c in files && pending[c].component == c {
      LaneOf(streams, pending, files, start, at, c);
    }
  }

  lemma ConsumeFirst(session: Session, r: Replayed, line: RawLogLine, rest: seq<RawLogLine>)
    ensures ConsumeAll(session, r, [line] + rest) == ConsumeAll(session, Consume(session, r, line), rest)
    ensures Consume(session, r, line).lastOrder == Some(OrderOf(line))
  {
    hide LogParser.Parse, ReducerSpec.ApplySourcedLine;
    assert ([line] + rest)[1..] == rest;
  }

  lemma ConsumeNone(session: Session, r: Replayed)
    ensures ConsumeAll(session, r, []) == r
    ensures forall last :: InOrder(last, [])
  {
  }

  lemma InOrderFirst(last: Option<LineOrder>, line: RawLogLine, rest: seq<RawLogLine>)
    ensures InOrder(last, [line] + rest)
       <==> !(last.Some? && Before(OrderOf(line), last.value)) && InOrder(Some(OrderOf(line)), rest)
  {
    hide Before;
    assert ([line] + rest)[1..] == rest;
  }

  /** Asks one reader for its next candidate. */
  method ReadCandidate(readers: Readers, files: LogFiles, c: Component) returns (line: Option<RawLogLine>)
    requires ReadersOn(readers, files) && ReadersValid(readers) && c in readers && c.CanEmitEvents()
    modifies readers[c]
    ensures ReadersValid(readers)
    ensures Delivers(View(files), c, old(readers[c].cursor), line, readers[c].cursor)
    ensures At(readers) == old(At(readers))[c := readers[c].cursor]
  {
    hide PendingEvents, EndCursor, Delivers, RestOf, EndOf;
    assert forall d | d in readers && d != c :: readers[d] != readers[c];
    ghost var from := readers[c].cursor;
    line := readers[c].NextEventCandidate();
    DeliveredIs(View(files), c, from, line, readers[c].cursor);
  }

  lemma DeliveredIs(files: Files, c: Component, from: LogCursor, line: Option<RawLogLine>, to: LogCursor)
    requires c in files && c.CanEmitEvents() && from.byteOffset <= |files[c].bytes| && to.byteOffset <= |files[c].bytes|
    requires var bytes := files[c].bytes;
      && EndCursor(bytes, to) == EndCursor(bytes, from)
      && match line
         case None => PendingEvents(c, bytes, from) == [] && to == EndCursor(bytes, from)
         case Some(l) => PendingEvents(c, bytes, from) == [l] + PendingEvents(c, bytes, to)
    ensures Delivers(files, c, from, line, to)
  {
    hide PendingEvents, EndCursor;
  }

  /** Before the first read no lane is under way. */
  lemma NoLanes(readers: Readers, files: LogFiles, start: Cursors)
    requires ReadersOn(readers, files) && CursorsFit(View(files), start)
    requires forall c | c in readers && c.CanEmitEvents() :: readers[c].cursor == CursorAt(start, c)
    ensures Lanes(PendingStreams(View(files), start), map[], View(files), start, At(readers), 0)
  {
    hide Lane;
    PendingTagged(View(files), start);
  }

  /** Reads the first candidate of every event component. */
  method FillPending(readers: Readers, files: LogFiles, ghost start: Cursors) returns (pending: Pending)
    requires ReadersOn(readers, files) && ReadersValid(readers) && CursorsFit(View(files), start)
    requires forall c | c in readers && c.CanEmitEvents() :: readers[c].cursor == CursorAt(start, c)
    modifies readers.Values
    ensures ReadersValid(readers)
    ensures Lanes(PendingStreams(View(files), start), pending, View(files), start, At(readers), 5)
    ensures SameInert(old(At(readers)), At(readers))
  {
    hide Delivers, PendingStreams, Lane, Lanes, ReadersValid, CursorsFit, Tagged;
    ComponentRanks();
    ghost var view := View(files);
    pending := map[];
    NoLanes(readers, files, start);
    ghost var streams := PendingStreams(view, start);
    for i := 0 to 5
      invariant ReadersValid(readers)
      invariant Lanes(streams, pending, view, start, At(readers), i)
      invariant SameInert(old(At(readers)), At(readers)) && View(files) == view
    {
      var c := COMPONENTS[i];
      if c.CanEmitEvents() && c in readers {
        assert readers[c] in readers.Values && c in view;
        ghost var at := At(readers);
        var line := ReadCandidate(readers, files, c);
        FillStartsLane(streams, pending, view, start, at, c, line, readers[c].cursor);
        pending := Refill(pending, c, line);
      } else {
        AbsentLane(streams, pending, view, start, At(readers), c);
      }
    }
  }

  lemma MergedStreams(session: Session, r: Replayed, files: Files, start: Cursors, guarded: bool)
    requires CursorsFit(files, start) && Tagged(PendingStreams(files, start))
    ensures Merge(PendingStreams(files, start)) == PendingMerged(files, start)
    ensures Drained(session, r, files, start) == ConsumeAll(session, r, PendingMerged(files, start))
    ensures Owes(session, r, PendingMerged(files, start), r, PendingMerged(files, start), guarded)
  {
    hide ConsumeAll, Merge, InOrder;
  }

  /** Replaces a consumed line by its component's next candidate. */
  method Follow(
    readers: Readers, files: LogFiles, ghost start: Cursors, pending: Pending, next: Component, ghost streams: Streams)
    returns (pending': Pending)
    requires ReadersOn(readers, files) && ReadersValid(readers) && next in readers && next.CanEmitEvents()
    requires Lanes(streams, pending, View(files), start, At(readers), 5) && next in pending
    modifies readers.Values
    ensures ReadersValid(readers) && next.Rank() < |streams| && streams[next.Rank()] != []
    ensures Lanes(Pop(streams, next.Rank()), pending', View(files), start, At(readers), 5)
    ensures SameInert(old(At(readers)), At(readers))
  {
    hide Lanes, Delivers, ReadersValid;
    ghost var at := At(readers);
    assert readers[next] in readers.Values;
    var following := ReadCandidate(readers, files, next);
    RefillKeepsLanes(streams, pending, View(files), start, at, next, following, readers[next].cursor);
    pending' := Refill(pending, next, following);
  }

  /** Where the reader of an inert component stands. */
  function InertEnd(files: Files, c: Component): LogCursor
    requires c in files
  {
    LogCursor(LastLineEnd(files[c].bytes), 0)
  }

  method OpenReader(c: Component, file: LogFile, cursor: LogCursor) returns (reader: ComponentLogReader)
    requires cursor.byteOffset <= |file.bytes|
    ensures fresh(reader) && reader.Valid() && reader.component == c && reader.file == file
    ensures reader.cursor == if c.CanEmitEvents() then cursor else LogCursor(LastLineEnd(file.bytes), 0)
  {
    reader := new ComponentLogReader.Open(c, file, cursor);
    if !c.CanEmitEvents() {
      reader.FastForwardInertComponent();
    }
  }

  /** Opens a reader at every component's cursor; the inert ones jump to the last newline. */
  method OpenReaders(files: LogFiles, cursors: Cursors) returns (readers: Readers)
    requires CursorsFit(View(files), cursors)
    ensures ReadersOn(readers, files) && ReadersValid(readers)
    ensures forall c | c in readers :: fresh(readers[c])
    ensures forall c | c in readers && c.CanEmitEvents() :: readers[c].cursor == CursorAt(cursors, c)
    ensures forall c | c in readers && !c.CanEmitEvents() :: readers[c].cursor == InertEnd(View(files), c)
  {
    hide LastLineEnd, InertEnd, CursorsFit;
    ComponentRanks();
    readers := map[];
    for i := 0 to 5
      invariant readers.Keys == set c | c in files && c.Rank() < i
      invariant forall c | c in readers ::
        && fresh(readers[c]) && readers[c].Valid()
        && readers[c].component == c && readers[c].file == files[c]
        && readers[c].cursor == if c.CanEmitEvents() then CursorAt(cursors, c) else InertEnd(View(files), c)
    {
      var c := COMPONENTS[i];
      assert forall d: Component | d.Rank() == i :: d == c;
      if c in files {
        FittingCursor(files, cursors, c);
        var reader := OpenReader(c, files[c], CursorAt(cursors, c));
        readers := readers[c := reader];
      }
    }
  }

  lemma FittingCursor(files: LogFiles, cursors: Cursors, c: Component)
    requires CursorsFit(View(files), cursors) && c in files
    ensures CursorAt(cursors, c).byteOffset <= |files[c].bytes|
    ensures InertEnd(View(files), c) == LogCursor(LastLineEnd(files[c].bytes), 0)
  {
    assert View(files)[c].bytes == files[c].bytes;
  }

  /** The bytes before every non-zero cursor. */
  function Evidence(files: Files, at: Cursors): map<Component, TailWitness> {
    map c | c in files && 0 < CursorAt(at, c).byteOffset <= |files[c].bytes| ::
      WitnessAt(files[c].bytes, CursorAt(at, c).byteOffset)
  }

  /** Drained readers stand where the specification puts the cursors. */
  lemma DrainedCursors(files: Files, start: Cursors, at: Cursors)
    requires CursorsFit(files, start) && at.Keys == files.Keys
    requires forall c | c in files ::
      at[c] == if c.CanEmitEvents() then EndOf(files, c, CursorAt(start, c)) else InertEnd(files, c)
    ensures at == AdvancedCursors(files, start)
  {
    forall c | c in files ensures at[c] == NextCursor(c, files[c].bytes, CursorAt(start, c)) {
    }
  }

  lemma PolledStateIs(session: Session, o: Observed, files: Files)
    requires CursorsFit(files, o.cursors)
    ensures var at := AdvancedCursors(files, o.cursors);
      PolledState(session, o, files) == Observed(
        Drained(session, o.replay, files, o.cursors), o.cursors + at, o.identities,
        (o.witnesses - files.Keys) + Evidence(files, at))
  {
    hide WitnessAt, NextCursor, Drained;
    var at := AdvancedCursors(files, o.cursors);
    assert Evidence(files, at) == Witnesses(files, o.cursors + at);
  }

  lemma Keys(readers: Readers, files: LogFiles)
    requires ReadersOn(readers, files)
    ensures At(readers).Keys == View(files).Keys == files.Keys == readers.Keys
    ensures forall c | c in readers :: At(readers)[c] == readers[c].cursor
  {
  }

  function Witnessed(evidence: map<Component, TailWitness>, c: Component, bytes: string, cursor: nat):
    map<Component, TailWitness>
    requires cursor <= |bytes|
  {
    if cursor > 0 then evidence[c := WitnessAt(bytes, cursor)] else evidence - {c}
  }

  ghost predicate InFiles(files: Files, at: Cursors) {
    at.Keys == files.Keys && forall c | c in at :: at[c].byteOffset <= |files[c].bytes|
  }

  /** The cursors and the evidence once the components of rank below `n` are saved. */
  ghost function SavedCursors(before: Cursors, at: Cursors, n: nat): Cursors
    requires n <= 5
  {
    if n == 0 then before
    else
      var saved, c := SavedCursors(before, at, n - 1), COMPONENTS[n - 1];
      if c in at then saved[c := at[c]] else saved
  }

  ghost function SavedEvidence(before: map<Component, TailWitness>, files: Files, at: Cursors, n: nat):
    map<Component, TailWitness>
    requires n <= 5 && InFiles(files, at)
  {
    if n == 0 then before
    else
      var saved, c := SavedEvidence(before, files, at, n - 1), COMPONENTS[n - 1];
      if c in at then Witnessed(saved, c, files[c].bytes, at[c].byteOffset) else saved
  }

  predicate Differs(before: Cursors, at: Cursors, n: nat) {
    exists c | c in at && c.Rank() < n :: c !in before || before[c] != at[c]
  }

  lemma DiffersNext(before: Cursors, at: Cursors, c: Component)
    ensures Differs(before, at, c.Rank() + 1)
       <==> Differs(before, at, c.Rank()) || (c in at && (c !in before || before[c] != at[c]))
  {
    ComponentRanks();
    forall d: Component ensures d.Rank() == c.Rank() ==> d == c {
      assert COMPONENTS[d.Rank()] == d;
    }
  }

  lemma {:induction false} SavedCursorsAre(before: Cursors, at: Cursors, n: nat, c: Component)
    requires n <= 5
    ensures c in SavedCursors(before, at, n) <==> c in before || (c in at && c.Rank() < n)
    ensures c in SavedCursors(before, at, n) ==>
      SavedCursors(before, at, n)[c] == if c in at && c.Rank() < n then at[c] else before[c]
  {
    ComponentRanks();
    if n > 0 {
      SavedCursorsAre(before, at, n - 1, c);
      assert c.Rank() == n - 1 <==> c == COMPONENTS[n - 1];
    }
  }

  lemma {:induction false} SavedEvidenceIs(
    before: map<Component, TailWitness>, files: Files, at: Cursors, n: nat, c: Component)
    requires n <= 5 && InFiles(files, at)
    ensures var saved, evidence := SavedEvidence(before, files, at, n), Evidence(files, at);
      if c in at && c.Rank() < n
      then (c in saved <==> c in evidence) && (c in saved ==> saved[c] == evidence[c])
      else (c in saved <==> c in before) && (c in saved ==> saved[c] == before[c])
  {
    hide WitnessAt;
    ComponentRanks();
    if n > 0 {
      SavedEvidenceIs(before, files, at, n - 1, c);
      assert c.Rank() == n - 1 <==> c == COMPONENTS[n - 1];
    }
  }

  lemma EvidenceOnFiles(files: Files, at: Cursors)
    ensures Evidence(files, at).Keys <= files.Keys
  {
  }

  lemma ReadersInFiles(readers: Readers, files: LogFiles)
    requires ReadersOn(readers, files) && ReadersValid(readers)
    ensures InFiles(View(files), At(readers)) && View(files).Keys == files.Keys
  {
  }

  lemma NothingSaved(before: Cursors, evidence: map<Component, TailWitness>, files: Files, at: Cursors)
    requires InFiles(files, at)
    ensures SavedCursors(before, at, 0) == before && SavedEvidence(evidence, files, at, 0) == evidence
    ensures !Differs(before, at, 0)
  {
  }

  lemma SavedAll(before: Cursors, evidence: map<Component, TailWitness>, files: Files, at: Cursors)
    requires InFiles(files, at)
    ensures SavedCursors(before, at, 5) == before + at
    ensures SavedEvidence(evidence, files, at, 5) == (evidence - files.Keys) + Evidence(files, at)
  {
    hide WitnessAt, SavedCursors, SavedEvidence, Evidence;
    ComponentRanks();
    EvidenceOnFiles(files, at);
    forall c: Component
      ensures c in SavedCursors(before, at, 5) <==> c in before + at
      ensures c in before + at ==> SavedCursors(before, at, 5)[c] == (before + at)[c]
    {
      SavedCursorsAre(before, at, 5, c);
    }
    var all := (evidence - files.Keys) + Evidence(files, at);
    forall c: Component
      ensures c in SavedEvidence(evidence, files, at, 5) <==> c in all
      ensures c in all ==> SavedEvidence(evidence, files, at, 5)[c] == all[c]
    {
      SavedEvidenceIs(evidence, files, at, 5, c);
    }
  }

  /** Whether a poll has anything to do: a line to consume or a cursor to move. */
  ghost predicate Moves(files: Files, cursors: Cursors)
    requires CursorsFit(files, cursors)
  {
    PendingMerged(files, cursors) != [] || Differs(cursors, AdvancedCursors(files, cursors), 5)
  }

  lemma NoFiles(session: Session, slots: Option<U16>, files: Files)
    requires files.Keys == {}
    ensures ObserverSpec.AttachFull(session, slots, files) == Err(NoReadableLogs)
  {
    assert files == map[];
  }

  /** Attaching is a first poll of an observer that has read nothing. */
  lemma AttachIsFirstPoll(session: Session, slots: Option<U16>, files: Files)
    requires files.Keys != {}
    ensures CursorsFit(files, map[])
    ensures
      var first := Observed(FreshReplay(slots), map[], map c | c in files :: files[c].identity, map[]);
      ObserverSpec.AttachFull(session, slots, files) == Ok(PolledState(session, first, files))
  {
    hide Drained, NextCursor, Witnesses;
    var none: map<Component, TailWitness> := map[];
    assert map[] + AdvancedCursors(files, map[]) == AdvancedCursors(files, map[]);
    assert (none - files.Keys) + Witnesses(files, AdvancedCursors(files, map[]))
        == Witnesses(files, AdvancedCursors(files, map[]));
  }

  /** What is left to consume accounts for what was owed at the start. */
  ghost predicate Owes(
    session: Session, r: Replayed, left: seq<RawLogLine>, r0: Replayed, all: seq<RawLogLine>, guarded: bool)
  {
    && ConsumeAll(session, r, left) == ConsumeAll(session, r0, all)
    && (guarded ==> (InOrder(r.lastOrder, left) <==> InOrder(r0.lastOrder, all)))
    && |left| <= |all|
  }

  lemma OwesLess(
    session: Session, r: Replayed, line: RawLogLine, rest: seq<RawLogLine>, r0: Replayed, all: seq<RawLogLine>,
    guarded: bool)
    requires Owes(session, r, [line] + rest, r0, all, guarded)
    ensures all != []
    ensures guarded && r.lastOrder.Some? && Before(OrderOf(line), r.lastOrder.value) ==> !InOrder(r0.lastOrder, all)
    ensures !(guarded && r.lastOrder.Some? && Before(OrderOf(line), r.lastOrder.value)) ==>
      Owes(session, Consume(session, r, line), rest, r0, all, guarded)
  {
    hide Consume, ConsumeAll, InOrder, Before;
    ConsumeFirst(session, r, line, rest);
    InOrderFirst(r.lastOrder, line, rest);
  }

  lemma OwesNothing(session: Session, r: Replayed, r0: Replayed, all: seq<RawLogLine>, guarded: bool)
    requires Owes(session, r, [], r0, all, guarded)
    ensures r == ConsumeAll(session, r0, all) && (guarded ==> InOrder(r0.lastOrder, all))
  {
    ConsumeNone(session, r);
  }

  /** Inert readers have not moved. */
  predicate SameInert(before: Cursors, after: Cursors) {
    && before.Keys == after.Keys
    && forall c | c in before && !c.CanEmitEvents() :: after[c] == before[c]
  }

  class SessionObserver {
    const session: Session
    const parser: HearthstoneLogParser
    const reducer: ArenaReducer
    var cursors: Cursors
    var identities: map<Component, nat>
    var witnesses: map<Component, TailWitness>
    var lastOrder: Option<LineOrder>
    var lastSource: Option<EventSource>

    ghost function CurrentReplay(): Replayed
      reads this`lastOrder, this`lastSource, parser, reducer
    {
      Replayed(parser.Flags(), reducer.State(), lastOrder, lastSource)
    }

    ghost function Model(): Observed
      reads this, parser, reducer
    {
      Observed(CurrentReplay(), cursors, identities, witnesses)
    }

    constructor (session: Session, slots: Option<U16>)
      ensures fresh(parser) && fresh(reducer)
      ensures this.session == session
      ensures Model() == Observed(FreshReplay(slots), map[], map[], map[])
    {
      this.session := session;
      parser := new HearthstoneLogParser();
      reducer := new ArenaReducer.WithExpectedDeckSlots(slots);
      cursors, identities, witnesses := map[], map[], map[];
      lastOrder, lastSource := None, None;
    }

    constructor FromParts(session: Session, parser: HearthstoneLogParser, reducer: ArenaReducer)
      ensures this.session == session && this.parser == parser && this.reducer == reducer
      ensures Model() == Observed(Replayed(parser.Flags(), reducer.State(), None, None), map[], map[], map[])
    {
      this.session, this.parser, this.reducer := session, parser, reducer;
      cursors, identities, witnesses := map[], map[], map[];
      lastOrder, lastSource := None, None;
    }

    method ConsumeLine(line: RawLogLine)
      modifies this`lastOrder, this`lastSource, parser, reducer
      ensures CurrentReplay() == Consume(session, old(CurrentReplay()), line)
    {
      lastOrder := Some(OrderOf(line));
      var source := SourceOf(session, line);
      lastSource := Some(source);
      var events := parser.ParseLine(line);
      reducer.ApplySourcedLine(source, events);
    }

    /** Consumes the first pending line, unless the guard finds it below the one before it. */
    method ConsumeLeast(
      readers: Readers, files: LogFiles, ghost start: Cursors, pending: Pending, ghost streams: Streams,
      ghost r0: Replayed, ghost all: seq<RawLogLine>, guarded: bool)
      returns (inOrder: bool, pending': Pending, ghost streams': Streams)
      requires ReadersOn(readers, files) && ReadersValid(readers) && pending != map[]
      requires Lanes(streams, pending, View(files), start, At(readers), 5) && Tagged(streams)
      requires Owes(session, CurrentReplay(), Merge(streams), r0, all, guarded)
      modifies this`lastOrder, this`lastSource, parser, reducer, readers.Values
      ensures all != []
      ensures !inOrder ==> guarded && !InOrder(r0.lastOrder, all)
      ensures inOrder ==>
        && Lanes(streams', pending', View(files), start, At(readers), 5) && Tagged(streams')
        && Owes(session, CurrentReplay(), Merge(streams'), r0, all, guarded)
        && Size(streams') < Size(streams)
      ensures ReadersValid(readers) && SameInert(old(At(readers)), At(readers))
    {
      hide Consume, Merge, Lanes, InOrder, Precedes, IsLeastHead, Tagged, ReadersValid, Owes, Before, Pop, Size, Delivers,
        At;
      ghost var view := View(files);
      PendingComponents(streams, pending, view, start, At(readers));
      var least := NextPendingComponent(pending);
      var next := least.value;
      var line := pending[next];
      PendingIsLeastHead(streams, pending, view, start, At(readers), next);
      MergeStep(streams, next.Rank());
      streams' := Pop(streams, next.Rank());
      OwesLess(session, CurrentReplay(), line, Merge(streams'), r0, all, guarded);
      pending' := pending;
      if guarded && lastOrder.Some? && Before(OrderOf(line), lastOrder.value) {
        return false, pending', streams';
      }
      ConsumeLine(line);
      pending' := Follow(readers, files, start, pending, next, streams);
      inOrder := true;
    }

    /** Merges until nothing is pending or the guard stops. */
    method MergePending(
      readers: Readers, files: LogFiles, ghost start: Cursors, first: Pending, ghost streams: Streams,
      ghost all: seq<RawLogLine>, guarded: bool)
      returns (inOrder: bool, consumed: bool)
      requires ReadersOn(readers, files) && ReadersValid(readers) && Tagged(streams)
      requires Lanes(streams, first, View(files), start, At(readers), 5)
      requires all == Merge(streams) && Owes(session, CurrentReplay(), all, CurrentReplay(), all, guarded)
      modifies this`lastOrder, this`lastSource, parser, reducer, readers.Values
      ensures inOrder <==> !guarded || InOrder(old(CurrentReplay()).lastOrder, all)
      ensures inOrder ==>
        && CurrentReplay() == ConsumeAll(session, old(CurrentReplay()), all)
        && (consumed <==> all != [])
        && forall c | c in readers && c.CanEmitEvents() ::
             CursorAt(At(readers), c) == EndOf(View(files), c, CursorAt(start, c))
      ensures ReadersValid(readers) && SameInert(old(At(readers)), At(readers))
    {
      hide Consume, Merge, Lanes, InOrder, ConsumeAll, Tagged, EndOf, ReadersValid, Owes, CurrentReplay,
        At, View;
      ghost var view, r0, at0, left := View(files), CurrentReplay(), At(readers), streams;
      var pending := first;
      consumed := false;
      while pending != map[]
        invariant ReadersValid(readers) && Lanes(left, pending, view, start, At(readers), 5)
        invariant Tagged(left) && SameInert(at0, At(readers)) && View(files) == view
        invariant Owes(session, CurrentReplay(), Merge(left), r0, all, guarded)
        invariant if consumed then all != [] else Merge(left) == all
        decreases Size(left)
      {
        inOrder, pending, left := ConsumeLeast(readers, files, start, pending, left, r0, all, guarded);
        if !inOrder {
          return false, consumed;
        }
        consumed := true;
      }
      NothingPendingMerges(left, pending, view, start, At(readers));
      Keys(readers, files);
      OwesNothing(session, CurrentReplay(), r0, all, guarded);
      return true, consumed;
    }

    /** Merges what the readers deliver; a guarded merge stops at the first line below the one before it. */
    method DrainReaders(readers: Readers, files: LogFiles, ghost start: Cursors, guarded: bool)
      returns (inOrder: bool, consumed: bool)
      requires ReadersOn(readers, files) && ReadersValid(readers) && CursorsFit(View(files), start)
      requires forall c | c in readers && c.CanEmitEvents() :: readers[c].cursor == CursorAt(start, c)
      modifies this`lastOrder, this`lastSource, parser, reducer, readers.Values
      ensures inOrder <==> !guarded || InOrder(old(lastOrder), PendingMerged(View(files), start))
      ensures inOrder ==>
        && CurrentReplay() == Drained(session, old(CurrentReplay()), View(files), start)
        && (consumed <==> PendingMerged(View(files), start) != [])
        && forall c | c in readers && c.CanEmitEvents() ::
             CursorAt(At(readers), c) == EndOf(View(files), c, CursorAt(start, c))
      ensures ReadersValid(readers) && SameInert(old(At(readers)), At(readers))
    {
      hide Consume, Merge, PendingStreams, Lanes, InOrder, ConsumeAll, Tagged, EndOf, ReadersValid, Owes, PendingMerged,
        Drained;
      PendingTagged(View(files), start);
      MergedStreams(session, CurrentReplay(), View(files), start, guarded);
      var pending := FillPending(readers, files, start);
      ghost var streams := PendingStreams(View(files), start);
      inOrder, consumed := MergePending(
        readers, files, start, pending, streams, PendingMerged(View(files), start), guarded);
    }

    method SaveCursor(c: Component, file: LogFile, next: LogCursor) returns (moved: bool)
      requires next.byteOffset <= |file.bytes|
      modifies this`cursors, this`witnesses
      ensures cursors == old(cursors)[c := next]
      ensures witnesses == Witnessed(old(witnesses), c, file.bytes, next.byteOffset)
      ensures moved <==> c !in old(cursors) || old(cursors)[c] != next
    {
      moved := c !in cursors || cursors[c] != next;
      cursors := cursors[c := next];
      if next.byteOffset > 0 {
        witnesses := witnesses[c := WitnessAt(file.bytes, next.byteOffset)];
      } else {
        witnesses := witnesses - {c};
      }
    }

    /** The next component's reader. */
    method SaveNext(
      readers: Readers, files: LogFiles, i: nat, ghost before: Cursors, ghost evidence: map<Component, TailWitness>,
      advanced: bool)
      returns (advanced': bool)
      requires i < 5 && ReadersOn(readers, files) && ReadersValid(readers)
      requires cursors == SavedCursors(before, At(readers), i)
      requires InFiles(View(files), At(readers))
      requires witnesses == SavedEvidence(evidence, View(files), At(readers), i)
      requires advanced <==> Differs(before, At(readers), i)
      modifies this`cursors, this`witnesses
      ensures cursors == SavedCursors(before, At(readers), i + 1)
      ensures witnesses == SavedEvidence(evidence, View(files), At(readers), i + 1)
      ensures advanced' <==> Differs(before, At(readers), i + 1)
    {
      hide Witnessed, Differs;
      ComponentRanks();
      ghost var at := At(readers);
      var c := COMPONENTS[i];
      SavedCursorsAre(before, at, i, c);
      DiffersNext(before, at, c);
      advanced' := advanced;
      if c in readers {
        assert readers[c].cursor == at[c] && files[c].bytes == View(files)[c].bytes;
        var moved := SaveCursor(c, files[c], readers[c].cursor);
        advanced' := advanced || moved;
      }
    }

    /** Remembers where every reader stopped, with the bytes before it as evidence. */
    method SaveCursors(readers: Readers, files: LogFiles) returns (advanced: bool)
      requires ReadersOn(readers, files) && ReadersValid(readers)
      modifies this`cursors, this`witnesses
      ensures cursors == old(cursors) + At(readers)
      ensures witnesses == (old(witnesses) - files.Keys) + Evidence(View(files), At(readers))
      ensures advanced <==> Differs(old(cursors), At(readers), 5)
    {
      hide Evidence, SavedCursors, SavedEvidence, Differs, InFiles, ReadersValid, ReadersOn, View, At;
      ghost var view, at, before, evidence := View(files), At(readers), cursors, witnesses;
      ReadersInFiles(readers, files);
      NothingSaved(before, evidence, view, at);
      SavedAll(before, evidence, view, at);
      advanced := false;
      for i := 0 to 5
        invariant View(files) == view && At(readers) == at
        invariant cursors == SavedCursors(before, at, i)
        invariant witnesses == SavedEvidence(evidence, view, at, i)
        invariant advanced <==> Differs(before, at, i)
      {
        advanced := SaveNext(readers, files, i, before, evidence, advanced);
      }
    }

    /** Opens and drains a reader for every component, from the cursors on. */
    method Drain(files: LogFiles, guarded: bool) returns (inOrder: bool, consumed: bool, readers: Readers)
      requires CursorsFit(View(files), cursors)
      modifies this`lastOrder, this`lastSource, parser, reducer
      ensures inOrder <==> !guarded || InOrder(old(lastOrder), PendingMerged(View(files), cursors))
      ensures inOrder ==>
        && CurrentReplay() == Drained(session, old(CurrentReplay()), View(files), cursors)
        && (consumed <==> PendingMerged(View(files), cursors) != [])
        && ReadersOn(readers, files) && ReadersValid(readers)
        && At(readers) == AdvancedCursors(View(files), cursors)
    {
      hide ReadersValid, Drained, PendingMerged, AdvancedCursors, InOrder, InertEnd, EndOf, CurrentReplay, CursorsFit, View;
      ghost var view := View(files);
      readers := OpenReaders(files, cursors);
      inOrder, consumed := DrainReaders(readers, files, cursors, guarded);
      if inOrder {
        Keys(readers, files);
        DrainedCursors(view, cursors, At(readers));
      }
    }

    /** Opens, drains and saves every component's reader, from the cursors on. */
    method Advance(files: LogFiles, guarded: bool) returns (inOrder: bool, moved: bool)
      requires CursorsFit(View(files), cursors)
      modifies this`cursors, this`witnesses, this`lastOrder, this`lastSource, parser, reducer
      ensures inOrder <==> !guarded || InOrder(old(lastOrder), PendingMerged(View(files), old(cursors)))
      ensures inOrder ==> Model() == PolledState(session, old(Model()), View(files))
      ensures inOrder ==> (moved <==> Moves(View(files), old(cursors)))
    {
      hide ReadersValid, ReadersOn, Drained, PendingMerged, AdvancedCursors, InOrder, CursorsFit, View, At, PolledState, Moves,
        CurrentReplay, NextCursor, Component.CanEmitEvents;
      ghost var before := Model();
      var consumed, readers;
      inOrder, consumed, readers := Drain(files, guarded);
      if !inOrder {
        return false, false;
      }
      moved := Conclude(readers, files, consumed, before);
    }

    /** Saves where drained readers stopped. */
    method Conclude(readers: Readers, files: LogFiles, consumed: bool, ghost before: Observed) returns (moved: bool)
      requires ReadersOn(readers, files) && ReadersValid(readers)
      requires CursorsFit(View(files), cursors) && At(readers) == AdvancedCursors(View(files), cursors)
      requires before.cursors == cursors
      requires Model() == before.(replay := Drained(session, before.replay, View(files), cursors))
      requires consumed <==> PendingMerged(View(files), cursors) != []
      modifies this`cursors, this`witnesses
      ensures Model() == PolledState(session, before, View(files))
      ensures moved <==> Moves(View(files), old(cursors))
    {
      hide ReadersValid, Drained, PendingMerged, AdvancedCursors, Evidence, Differs, CursorsFit, View, At, PolledState,
        CurrentReplay, NextCursor, Component.CanEmitEvents;
      PolledStateIs(session, before, View(files));
      Keys(readers, files);
      var advanced := SaveCursors(readers, files);
      moved := consumed || advanced;
    }

    /** Attaches to a session by replaying its whole history. */
    static method AttachFull(session: Session, slots: Option<U16>, files: LogFiles)
      returns (r: Result<SessionObserver, AttachError>)
      ensures r.Err? ==> ObserverSpec.AttachFull(session, slots, View(files)) == Err(r.error)
      ensures r.Ok? ==> fresh(r.value) && fresh(r.value.parser) && fresh(r.value.reducer)
      ensures r.Ok? ==> ObserverSpec.AttachFull(session, slots, View(files)) == Ok(r.value.Model())
      ensures r.Ok? ==> r.value.session == session
    {
      hide PolledState, ObserverSpec.AttachFull, SessionObserver.CurrentReplay, CursorsFit, InOrder, FreshReplay, Moves,
        PendingMerged;
      ghost var view := View(files);
      if files.Keys == {} {
        NoFiles(session, slots, View(files));
        return Err(NoReadableLogs);
      }
      var observer := new SessionObserver(session, slots);
      observer.identities := map c | c in files :: files[c].identity;
      assert observer.identities == map c | c in view :: view[c].identity;
      AttachIsFirstPoll(session, slots, view);
      assert observer.cursors == map[] && View(files) == view;
      var _, _ := observer.Advance(files, false);
      assert View(files) == view;
      r := Ok(observer);
    }

    /** The first component that can no longer be tailed. */
    method CheckFiles(files: LogFiles) returns (fault: Option<PollError>)
      ensures fault == FirstFault(Model(), View(files), 0)
    {
      hide WitnessMatches;
      fault := None;
      for i := 0 to 5
        invariant fault.None? && FirstFault(Model(), View(files), 0) == FirstFault(Model(), View(files), i)
      {
        var c := COMPONENTS[i];
        if c !in files {
          if c in identities {
            return Some(Disappeared(c));
          }
        } else if c !in identities {
          return Some(Appeared(c));
        } else if identities[c] != files[c].identity {
          return Some(Replaced(c));
        } else if |files[c].bytes| < CursorAt(cursors, c).byteOffset {
          return Some(Truncated(c));
        } else if c in witnesses && !WitnessMatches(files[c].bytes, witnesses[c]) {
          return Some(ChangedBeforeCursor(c));
        }
      }
    }

    /** Consumes appended complete lines, or reports why the files cannot be tailed any further. */
    method Poll(files: LogFiles) returns (r: Result<bool, PollError>)
      modifies this, parser, reducer
      ensures match ObserverSpec.Poll(session, old(Model()), View(files))
        case Ok(next) => r.Ok? && Model() == next
        case Err(error) => r == Err(error)
      ensures r.Ok? ==> CursorsFit(View(files), old(cursors)) && (r.value <==> Moves(View(files), old(cursors)))
    {
      hide PolledState, PendingMerged, InOrder, FirstFault, Moves;
      var fault := CheckFiles(files);
      if fault.Some? {
        return Err(fault.value);
      }
      NoFaultFits(Model(), View(files));
      var inOrder, moved := Advance(files, true);
      r := if inOrder then Ok(moved) else Err(OutOfOrder);
    }
  }
}
