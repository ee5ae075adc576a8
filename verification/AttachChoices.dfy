/** How the live attach decides what to read of an Arena log: a snapshot, a run, or nothing yet. */
module AttachChoices {
  import opened Prelude
  import opened Text
  import opened ArenaState
  import opened ReducerSpec
  import opened LogRecords
  import opened ReverseSearch
  import opened LineGrammar
  import opened LogParser
  import opened LogReader
  import opened ObserverSpec
  import opened TailRun
  import opened HydratedDeck
  import TailAttach
  import TailPolls

  const PARSE_LIMIT: nat := 512 * 1024
  const SUFFIX_LIMIT: nat := 256 * 1024

  /** The newest mention of a header is a complete record that is one, no run start is mentioned after it, and a completing
      mode line follows within the limit and with no Redraft boundary before it. */
  predicate Hydratable(bytes: string) {
    && HasHeader(bytes) && NaiveLastLine(bytes, DRAFT_DECK).value.complete
    && (NaiveLastLine(bytes, ON_BEGIN).Some? ==> NaiveLastLine(bytes, ON_BEGIN).value.lineStart <= HeaderAt(bytes))
    && ListedWithoutBoundary(bytes, ListingAt(bytes)) && CompletionFrom(bytes, ListingAt(bytes)).Some?
    && CompletionFrom(bytes, ListingAt(bytes)).value.end <= HeaderAt(bytes) + PARSE_LIMIT
  }

  ghost function ScanCore(scan: TailAttach.Scan): Replayed {
    Replayed(scan.parser, scan.reducer, None, None)
  }

  /** One more line of a snapshot that has its header, within the limit. */
  lemma ScanOn(session: Session, bytes: string, start: nat, cursor: LogCursor, scan: TailAttach.Scan)
    returns (read: TailAttach.Scan)
    requires start <= cursor.byteOffset <= |bytes| && scan.header.Some? && NewlineFrom(bytes, cursor.byteOffset).Some?
    requires NewlineFrom(bytes, cursor.byteOffset).value + 1 <= start + PARSE_LIMIT
    requires !SaidAt(bytes, cursor.byteOffset).DraftDeck?
    ensures var i, said := NewlineFrom(bytes, cursor.byteOffset).value, SaidAt(bytes, cursor.byteOffset);
      var snapshot := TailAttach.ScanSnapshot(session, bytes, start, cursor, scan);
      && (IsCompletion(said) && scan.parser.readingDeck ==> snapshot.Complete?)
      && (!(IsCompletion(said) && scan.parser.readingDeck) ==>
            snapshot == TailAttach.ScanSnapshot(session, bytes, start, LogCursor(i + 1, cursor.lineNumber + 1), read))
      && read.header == scan.header && read.parser == ParseArena(scan.parser, said).0
      && (SeenBelow(ScanCore(scan), cursor.byteOffset) ==>
            && CoreOf(ScanCore(read)) == StepCore(session, CoreOf(ScanCore(scan)), ArenaRecord(bytes, cursor.byteOffset, i))
            && SeenBelow(ScanCore(read), i + 1))
  {
    hide ClassifyArena, ArenaRecord, LineAt, ApplySourcedLine, TailAttach.CardsOf, TailAttach.ModeOf, TailAttach.Completes,
      TailAttach.ScanSnapshot, TailAttach.HeaderOf, ParseArena, StepCore, SeenBelow;
    TailAttach.ScanUnfolds(session, bytes, start, cursor, scan);
    var i := NewlineFrom(bytes, cursor.byteOffset).value;
    var line := LineAt(Component.Arena, bytes, cursor, i);
    SaysTheSame(bytes, cursor, i);
    LineAdds(scan.parser, ClassifyArena(line.message), scan.mode);
    read := TailAttach.ReadInto(session, scan, line, scan.header.value);
    if SeenBelow(ScanCore(scan), cursor.byteOffset) {
      LineIsRecord(bytes, cursor, i);
      ConsumeIsStep(session, ScanCore(scan), line);
      SameSeen(Consume(session, ScanCore(scan), line), ScanCore(read), cursor.byteOffset + 1);
      SeenFurther(ScanCore(read), cursor.byteOffset + 1, i + 1);
    }
  }

  lemma SameSeen(a: Replayed, b: Replayed, bound: nat)
    requires a.reducer == b.reducer && SeenBelow(a, bound)
    ensures SeenBelow(b, bound)
  {
  }

  lemma LineIsRecord(bytes: string, cursor: LogCursor, newline: nat)
    requires cursor.byteOffset <= newline < |bytes|
    ensures var line := LineAt(Component.Arena, bytes, cursor, newline);
      line.(lineNumber := 0) == ArenaRecord(bytes, cursor.byteOffset, newline) && line.byteOffset == cursor.byteOffset
  {
    hide SplitTimestamp, TrimLineEnd;
  }

  /** A listing that is completed within the limit is read to its completion, and no other is. */
  lemma {:induction false} ScanCompletesIff(
    session: Session, bytes: string, start: nat, cursor: LogCursor, scan: TailAttach.Scan)
    requires start <= cursor.byteOffset <= |bytes| && scan.header.Some? && InListing(scan.parser)
    requires NoHeader(bytes, cursor.byteOffset)
    ensures TailAttach.ScanSnapshot(session, bytes, start, cursor, scan).Complete? <==>
      && ListedWithoutBoundary(bytes, cursor.byteOffset) && CompletionFrom(bytes, cursor.byteOffset).Some?
      && CompletionFrom(bytes, cursor.byteOffset).value.end <= start + PARSE_LIMIT
    decreases |bytes| - cursor.byteOffset
  {
    hide SaidAt, TailAttach.ScanSnapshot, ParseArena, SeenBelow, StepCore;
    var newline := NewlineFrom(bytes, cursor.byteOffset);
    if newline.None? {
      NothingToScan(session, bytes, start, cursor, scan);
    } else {
      var i, said := newline.value, SaidAt(bytes, cursor.byteOffset);
      ListingLine(scan.parser, said);
      if i + 1 > start + PARSE_LIMIT {
        NothingToScan(session, bytes, start, cursor, scan);
      } else {
        var read := ScanOn(session, bytes, start, cursor, scan);
        if !IsCompletion(said) {
          var next := LogCursor(i + 1, cursor.lineNumber + 1);
          if said.RedraftBegin? {
            NeverCompletes(session, bytes, start, next, read);
          } else {
            ScanCompletesIff(session, bytes, start, next, read);
          }
        }
      }
    }
  }

  /** At the end of the complete lines, or beyond the limit, a scan stops unfinished. */
  lemma NothingToScan(session: Session, bytes: string, start: nat, cursor: LogCursor, scan: TailAttach.Scan)
    requires start <= cursor.byteOffset <= |bytes|
    requires NewlineFrom(bytes, cursor.byteOffset).Some? ==>
      NewlineFrom(bytes, cursor.byteOffset).value + 1 > start + PARSE_LIMIT
    ensures var snapshot := TailAttach.ScanSnapshot(session, bytes, start, cursor, scan);
      snapshot.Incomplete? && snapshot.parser == scan.parser && snapshot.reducer == scan.reducer
  {
    hide TailAttach.ScanSnapshot, Parse, LineAt;
    TailAttach.ScanUnfolds(session, bytes, start, cursor, scan);
  }

  /** The first line of a scan: without a header the scan stops there. */
  lemma ScanFirst(session: Session, slots: Option<U16>, bytes: string, start: nat) returns (read: TailAttach.Scan)
    requires start <= |bytes| && NewlineFrom(bytes, start).Some?
    ensures var i, said := NewlineFrom(bytes, start).value, SaidAt(bytes, start);
      var scan := TailAttach.ScanSnapshot(session, bytes, start, LogCursor(start, 0), TailAttach.FreshScan(slots));
      if i + 1 > start + PARSE_LIMIT || !said.DraftDeck? then scan.Incomplete? && scan.reducer == FreshReplay(slots).reducer
      else
        && scan == TailAttach.ScanSnapshot(session, bytes, start, LogCursor(i + 1, 1), read)
        && read.header.Some? && read.parser == FRESH_PARSER.(readingDeck := true)
        && CoreOf(ScanCore(read)) == StepCore(session, CoreOf(FreshReplay(slots)), ArenaRecord(bytes, start, i))
        && SeenBelow(ScanCore(read), i + 1)
  {
    hide ClassifyArena, ArenaRecord, LineAt, ApplySourcedLine, TailAttach.CardsOf, TailAttach.ModeOf, TailAttach.Completes,
      TailAttach.ScanSnapshot, TailAttach.HeaderOf, Parse, NewReducer, SeenBelow, StepCore;
    var cursor, scan := LogCursor(start, 0), TailAttach.FreshScan(slots);
    TailAttach.ScanUnfolds(session, bytes, start, cursor, scan);
    var i := NewlineFrom(bytes, start).value;
    var line := LineAt(Component.Arena, bytes, cursor, i);
    SaysTheSame(bytes, cursor, i);
    HeaderEvent(line);
    read := scan;
    if i + 1 <= start + PARSE_LIMIT && ClassifyArena(line.message).DraftDeck? {
      read := TailAttach.ReadInto(session, scan, line, TailAttach.HeaderOf(Parse(FRESH_PARSER, line).1).value);
      TailPolls.NothingSeen(slots);
      LineIsRecord(bytes, cursor, i);
      SameSeen(FreshReplay(slots), ScanCore(scan), start);
      ConsumeIsStep(session, ScanCore(scan), line);
      SameSeen(Consume(session, ScanCore(scan), line), ScanCore(read), start + 1);
      SeenFurther(ScanCore(read), start + 1, i + 1);
    }
  }

  lemma NewlineAfter(bytes: string, start: nat)
    requires start <= |bytes| && NewlineFrom(bytes, start).Some?
    ensures start <= NewlineFrom(bytes, start).value < |bytes|
  {
  }

  lemma {:induction false} CompletionLater(bytes: string, from: nat)
    requires from <= |bytes|
    ensures CompletionFrom(bytes, from).Some? ==> from < CompletionFrom(bytes, from).value.end
  {
  }

  lemma TailOfScan(session: Session, slots: Option<U16>, bytes: string, start: nat)
    requires start <= |bytes|
    ensures var tail := TailAttach.SnapshotTail(session, slots, bytes, start);
      var snapshot := TailAttach.ScanSnapshot(session, bytes, start, LogCursor(start, 0), TailAttach.FreshScan(slots));
      && (tail.how.TailSnapshot? <==> snapshot.Complete?) && (tail.how.AwaitingSnapshot? <==> snapshot.Incomplete?)
      && (snapshot.Incomplete? ==> tail.parser == snapshot.parser && tail.reducer == snapshot.reducer)
  {
    hide TailAttach.ScanSnapshot, TailAttach.FreshScan, ConsumeAll, PendingLines, EndCursor, LastLineEnd, TailAttach.Synced;
  }

  /** A snapshot at this offset is read to its end if and only if its first record is a header and a completing mode line
      follows within the limit, with no boundary before it. */
  lemma SnapshotReadIff(session: Session, slots: Option<U16>, bytes: string, start: nat)
    requires start <= |bytes| && NewlineFrom(bytes, start).Some? && NoHeader(bytes, NewlineFrom(bytes, start).value + 1)
    ensures var from := NewlineFrom(bytes, start).value + 1;
      TailAttach.SnapshotTail(session, slots, bytes, start).how.TailSnapshot? <==>
        && SaidAt(bytes, start).DraftDeck?
        && ListedWithoutBoundary(bytes, from) && CompletionFrom(bytes, from).Some?
        && CompletionFrom(bytes, from).value.end <= start + PARSE_LIMIT
  {
    hide SaidAt, TailAttach.ScanSnapshot, TailAttach.SnapshotTail, TailAttach.FreshScan, FreshReplay, CompletionFrom,
      ListedWithoutBoundary, NoHeader, NewlineFrom, StepCore, SeenBelow, ArenaRecord, CoreOf, ScanCore;
    TailOfScan(session, slots, bytes, start);
    NewlineAfter(bytes, start);
    var i := NewlineFrom(bytes, start).value;
    var read := ScanFirst(session, slots, bytes, start);
    CompletionLater(bytes, i + 1);
    if i + 1 <= start + PARSE_LIMIT && SaidAt(bytes, start).DraftDeck? {
      ScanCompletesIff(session, bytes, start, LogCursor(i + 1, 1), read);
    }
  }

  /** The live attach hydrates from a snapshot exactly when the log ends in a hydratable one. */
  lemma HydratesIff(session: Session, slots: Option<U16>, bytes: string)
    ensures TailAttach.ArenaTail(session, slots, bytes).how.TailSnapshot? <==> Hydratable(bytes)
  {
    hide SaidAt, TailAttach.SnapshotTail, RunAccepted, SuffixReplay, NaiveLastLine, NoneFrom, NewlineFrom, TailAttach.Waiting,
      LastLineEnd, EndCursor, StartsAt, NoHeader, ListedWithoutBoundary, CompletionFrom;
    TailAttach.WaitingIsNoSnapshot(slots, bytes);
    var newest, runStart := NaiveLastLine(bytes, DRAFT_DECK), NaiveLastLine(bytes, ON_BEGIN);
    if newest.Some? && newest.value.complete && !(runStart.Some? && runStart.value.lineStart > newest.value.lineStart) {
      LastLineIsRecord(bytes, DRAFT_DECK);
      var start := newest.value.lineStart;
      EarlierLine(bytes, ON_BEGIN, start);
      SentinelsGone(bytes, NewlineFrom(bytes, start).value + 1);
      SnapshotReadIff(session, slots, bytes, start);
    }
  }

  /** Failing that, it replays a run exactly when the newest mention of a run start is a complete record near the end that
      really starts a run, or has an accepted header after it. */
  lemma ReplaysRunIff(session: Session, slots: Option<U16>, bytes: string)
    ensures var runStart := NaiveLastLine(bytes, ON_BEGIN);
      TailAttach.ArenaTail(session, slots, bytes).how.TailRun? <==>
        && !Hydratable(bytes) && runStart.Some? && runStart.value.complete && runStart.value.lineStart <= |bytes|
        && LastLineEnd(bytes) <= runStart.value.lineStart + SUFFIX_LIMIT
        && (RunStartsAt(bytes, runStart.value.lineStart) || HeaderFrom(bytes, runStart.value.lineStart, FRESH_PARSER))
  {
    hide TailAttach.FromSnapshot, RunAccepted, SuffixReplay, NaiveLastLine, NoneFrom, NewlineFrom, LastLineEnd, EndCursor,
      Hydratable, RunStartsAt, HeaderFrom, IsBoundary;
    HydratesIff(session, slots, bytes);
    TailPolls.SnapshotIsNoRun(session, slots, bytes);
    if NaiveLastLine(bytes, ON_BEGIN).Some? && NaiveLastLine(bytes, ON_BEGIN).value.complete {
      LastLineIsRecord(bytes, ON_BEGIN);
      RunAcceptedIff(session, slots, bytes);
      Inside(bytes, NaiveLastLine(bytes, ON_BEGIN).value.lineStart);
    }
  }

  lemma Inside(bytes: string, at: nat)
    ensures IsBoundary(bytes, at) ==> at <= |bytes|
  {
  }

  lemma ReadToTheEnd(bytes: string, cursor: LogCursor)
    requires IsBoundary(bytes, cursor.byteOffset)
    ensures EndCursor(bytes, cursor).byteOffset == LastLineEnd(bytes)
  {
    hide Records, LastLineEnd, DurableEnd;
    DurableEndIsLastLineEnd(bytes, cursor.byteOffset);
  }

  /** However it attaches, the observer stands after the last complete line. */
  lemma AttachedAtEnd(session: Session, slots: Option<U16>, bytes: string)
    ensures TailAttach.ArenaTail(session, slots, bytes).cursor.byteOffset == LastLineEnd(bytes)
  {
    hide TailAttach.FromSnapshot, RunAccepted, SuffixReplay, NaiveLastLine, NoneFrom, NewlineFrom, LastLineEnd, EndCursor,
      IsBoundary;
    SnapshotAtEnd(session, slots, bytes);
    if NaiveLastLine(bytes, ON_BEGIN).Some? && NaiveLastLine(bytes, ON_BEGIN).value.complete {
      LastLineIsRecord(bytes, ON_BEGIN);
      ReadToTheEnd(bytes, LogCursor(NaiveLastLine(bytes, ON_BEGIN).value.lineStart, 0));
    }
  }

  /** So do the cursors of all other files, each remembered with its identity. */
  lemma EveryFileAtEnd(session: Session, slots: Option<U16>, files: Files)
    ensures var o := TailAttach.TailObserved(session, slots, files);
      && o.cursors.Keys == files.Keys == o.identities.Keys
      && forall c | c in files ::
           o.cursors[c].byteOffset == LastLineEnd(files[c].bytes) && o.identities[c] == files[c].identity
  {
    hide TailAttach.ArenaTail, LastLineEnd;
    if Component.Arena in files {
      AttachedAtEnd(session, slots, files[Component.Arena].bytes);
    }
  }

  lemma SnapshotAtEnd(session: Session, slots: Option<U16>, bytes: string)
    ensures TailAttach.FromSnapshot(session, slots, bytes).cursor.byteOffset == LastLineEnd(bytes)
  {
    hide TailAttach.ScanSnapshot, NaiveLastLine, NoneFrom, NewlineFrom, LastLineEnd, EndCursor, IsBoundary, ConsumeAll,
      PendingLines, NewReducer, TailAttach.Synced, TailAttach.FreshScan, FreshReplay;
    if NaiveLastLine(bytes, DRAFT_DECK).Some? && NaiveLastLine(bytes, DRAFT_DECK).value.complete {
      LastLineIsRecord(bytes, DRAFT_DECK);
      Inside(bytes, NaiveLastLine(bytes, DRAFT_DECK).value.lineStart);
      var start := NaiveLastLine(bytes, DRAFT_DECK).value.lineStart;
      var cursor, scan := LogCursor(start, 0), TailAttach.FreshScan(slots);
      TailAttach.CompletionInside(session, bytes, start, cursor, scan);
      var snapshot := TailAttach.ScanSnapshot(session, bytes, start, cursor, scan);
      if snapshot.Complete? {
        ReadToTheEnd(bytes, snapshot.completion);
      }
    }
  }

  // A snapshot that is not complete yet.

  lemma {:induction false} ScanFolds(
    session: Session, bytes: string, start: nat, cursor: LogCursor, scan: TailAttach.Scan)
    requires start <= cursor.byteOffset <= |bytes| <= start + PARSE_LIMIT && scan.header.Some?
    requires NoHeader(bytes, cursor.byteOffset) && SeenBelow(ScanCore(scan), cursor.byteOffset)
    ensures var snapshot := TailAttach.ScanSnapshot(session, bytes, start, cursor, scan);
      snapshot.Incomplete? ==>
        Core(snapshot.parser, snapshot.reducer.state)
          == FoldFrom(session, bytes, cursor.byteOffset, CoreOf(ScanCore(scan)))
    decreases |bytes| - cursor.byteOffset
  {
    hide SaidAt, TailAttach.ScanSnapshot, ParseArena, SeenBelow, StepCore, FoldFrom, ArenaRecord;
    FoldOne(session, bytes, cursor.byteOffset, CoreOf(ScanCore(scan)));
    if NewlineFrom(bytes, cursor.byteOffset).None? {
      NothingToScan(session, bytes, start, cursor, scan);
    } else {
      var i := NewlineFrom(bytes, cursor.byteOffset).value;
      var read := ScanOn(session, bytes, start, cursor, scan);
      if TailAttach.ScanSnapshot(session, bytes, start, cursor, scan).Incomplete? {
        ScanFolds(session, bytes, start, LogCursor(i + 1, cursor.lineNumber + 1), read);
      }
    }
  }

  lemma FoldHeader(session: Session, bytes: string, start: nat, k: Core)
    requires start <= |bytes| && NewlineFrom(bytes, start).Some?
    ensures start <= NewlineFrom(bytes, start).value < |bytes|
    ensures var i := NewlineFrom(bytes, start).value;
      FoldFrom(session, bytes, start, k) == FoldFrom(session, bytes, i + 1, StepCore(session, k, ArenaRecord(bytes, start, i)))
  {
    hide StepCore, ArenaRecord, FoldFrom;
    FoldOne(session, bytes, start, k);
  }

  lemma ScanOfHeader(session: Session, slots: Option<U16>, bytes: string, start: nat)
    requires start <= |bytes| <= start + PARSE_LIMIT && NewlineFrom(bytes, start).Some?
    requires NoHeader(bytes, NewlineFrom(bytes, start).value + 1) && SaidAt(bytes, start).DraftDeck?
    ensures var snapshot :=
        TailAttach.ScanSnapshot(session, bytes, start, LogCursor(start, 0), TailAttach.FreshScan(slots));
      snapshot.Incomplete? ==>
        Core(snapshot.parser, snapshot.reducer.state) == FoldFrom(session, bytes, start, CoreOf(FreshReplay(slots)))
  {
    hide SaidAt, TailAttach.ScanSnapshot, TailAttach.FreshScan, FreshReplay, NoHeader, NewlineFrom, StepCore, SeenBelow,
      FoldFrom, ArenaRecord, CoreOf, ScanCore;
    FoldHeader(session, bytes, start, CoreOf(FreshReplay(slots)));
    var i := NewlineFrom(bytes, start).value;
    var read := ScanFirst(session, slots, bytes, start);
    ScanFolds(session, bytes, start, LogCursor(i + 1, 1), read);
  }

  /** While a snapshot that has its header is not complete yet, the waiting observer knows what all records from that
      header on say. */
  lemma WaitingFolds(session: Session, slots: Option<U16>, bytes: string, start: nat)
    requires start <= |bytes| <= start + PARSE_LIMIT && NewlineFrom(bytes, start).Some?
    requires NoHeader(bytes, NewlineFrom(bytes, start).value + 1) && SaidAt(bytes, start).DraftDeck?
    ensures var tail := TailAttach.SnapshotTail(session, slots, bytes, start);
      tail.how.AwaitingSnapshot? ==>
        TailPolls.TailCore(tail) == FoldFrom(session, bytes, start, CoreOf(FreshReplay(slots)))
  {
    hide SaidAt, TailAttach.ScanSnapshot, TailAttach.SnapshotTail, TailAttach.FreshScan, FreshReplay, NoHeader, NewlineFrom,
      FoldFrom;
    TailOfScan(session, slots, bytes, start);
    ScanOfHeader(session, slots, bytes, start);
  }
}
