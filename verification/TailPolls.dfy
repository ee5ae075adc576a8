/** The live attach by run start, and the polls after it: the parser and the reducer of the complete history. */
module TailPolls {
  import opened Prelude
  import opened Text
  import opened ArenaState
  import opened ReducerSpec
  import opened LogRecords
  import opened ReverseSearch
  import opened LineGrammar
  import opened LogParser
  import opened LogReader
  import opened KWayMerge
  import opened ObserverSpec
  import opened TailRun
  import TailAttach
  import Tailing

  function TailCore(tail: TailAttach.Tail): Core {
    Core(tail.parser, tail.reducer.state)
  }

  ghost function HistoryCore(session: Session, slots: Option<U16>, identity: nat, bytes: string): Core {
    ArenaReplay(session, slots, identity, bytes);
    CoreOf(AttachFull(session, slots, ArenaOnly(identity, bytes)).value.replay)
  }

  /** The last mention of the run-start sentinel is a line that really starts a run. */
  predicate LastMentionStartsRun(bytes: string) {
    var mention := NaiveLastLine(bytes, ON_BEGIN);
    mention.Some? && RunStartsAt(bytes, mention.value.lineStart)
  }

  lemma SnapshotIsNoRun(session: Session, slots: Option<U16>, bytes: string)
    ensures !TailAttach.FromSnapshot(session, slots, bytes).how.TailRun?
  {
    hide TailAttach.ScanSnapshot, TailAttach.Synced, ConsumeAll, PendingLines, EndCursor, NaiveLastLine, LastLineEnd,
      FreshReplay;
  }

  /** A live attach by run start knows what the complete history knows, if the mention it found really starts a run. */
  lemma TailRunIsHistory(session: Session, slots: Option<U16>, identity: nat, bytes: string)
    requires TailAttach.ArenaTail(session, slots, bytes).how.TailRun? && LastMentionStartsRun(bytes)
    ensures TailCore(TailAttach.ArenaTail(session, slots, bytes)) == HistoryCore(session, slots, identity, bytes)
  {
    hide TailAttach.FromSnapshot, AttachFull, SuffixReplay, NaiveLastLine, RunAccepted, RunStartsAt;
    SnapshotIsNoRun(session, slots, bytes);
    LastLineIsRecord(bytes, ON_BEGIN);
    AcceptedSuffixIsHistory(session, slots, identity, bytes);
  }

  // The polls.

  lemma {:induction false} ConsumedSources(session: Session, r: Replayed, lines: seq<RawLogLine>, bound: nat)
    requires SeenBelow(r, bound) && forall line | line in lines :: line.byteOffset < bound
    ensures SeenBelow(ConsumeAll(session, r, lines), bound)
    decreases lines
  {
    hide Parse, ConsumeLine;
    if lines != [] {
      assert lines[0] in lines;
      ConsumedSources(session, Consume(session, r, lines[0]), lines[1..], bound);
    }
  }

  /** What is still to be read starts before the end cursor. */
  lemma {:induction false} PendingBelowEnd(bytes: string, cursor: LogCursor)
    requires cursor.byteOffset <= |bytes|
    ensures forall line | line in PendingEvents(Component.Arena, bytes, cursor) ::
      line.byteOffset < EndCursor(bytes, cursor).byteOffset
    ensures forall line | line in PendingLines(Component.Arena, bytes, cursor) ::
      line.byteOffset < EndCursor(bytes, cursor).byteOffset
    decreases |bytes| - cursor.byteOffset
  {
    hide PendingEvents, PendingLines, MightEmitEvent, TrimLineEnd, EndCursor, SplitTimestamp;
    match NewlineFrom(bytes, cursor.byteOffset)
    case None =>
      NoNextRecord(Component.Arena, bytes, cursor);
    case Some(i) =>
      var next := LogCursor(i + 1, cursor.lineNumber + 1);
      NextRecord(Component.Arena, bytes, cursor, i);
      PendingBelowEnd(bytes, next);
  }

  /** The observer of this one log stands at its last newline and knows what a fold over its records gives. */
  ghost predicate Tracks(session: Session, slots: Option<U16>, identity: nat, o: Observed, bytes: string) {
    && Component.Arena in o.cursors
    && o.cursors.Keys == {Component.Arena} && o.cursors[Component.Arena].byteOffset == LastLineEnd(bytes)
    && SeenBelow(o.replay, LastLineEnd(bytes))
    && CoreOf(o.replay) == FoldFrom(session, bytes, 0, CoreOf(FreshReplay(slots)))
  }

  /** Nothing after the last newline is folded. */
  lemma FoldToLastLine(session: Session, bytes: string, more: string, k: Core)
    ensures LastLineEnd(bytes) <= |bytes|
    ensures FoldFrom(session, bytes + more, 0, k)
         == FoldFrom(session, bytes + more, LastLineEnd(bytes), FoldFrom(session, bytes, 0, k))
  {
    hide StepCore, LastLineEnd, FoldFrom;
    var end := LastLineEnd(bytes);
    LastLineIsBoundary(bytes, more);
    FoldPasses(session, bytes + more, 0, end, k);
    FoldPasses(session, bytes, 0, end, k);
    assert (bytes + more)[..end] == bytes[..end];
    FoldOne(session, bytes, end, FoldFrom(session, bytes[..end], 0, k));
  }

  lemma LastLineIsBoundary(bytes: string, more: string)
    ensures var end := LastLineEnd(bytes);
      IsBoundary(bytes, end) && IsBoundary(bytes + more, end) && NewlineFrom(bytes, end) == None
  {
  }

  /** What one successful poll of the grown log reads. */
  lemma PolledArena(session: Session, o: Observed, identity: nat, bytes: string)
    requires o.cursors.Keys == {Component.Arena} && o.cursors[Component.Arena].byteOffset <= |bytes|
    requires Poll(session, o, ArenaOnly(identity, bytes)).Ok?
    ensures var cursor, polled := o.cursors[Component.Arena], Poll(session, o, ArenaOnly(identity, bytes)).value;
      && polled.replay == ConsumeAll(session, o.replay, PendingEvents(Component.Arena, bytes, cursor))
      && polled.cursors == map[Component.Arena := EndCursor(bytes, cursor)]
  {
    hide PendingEvents, ConsumeAll, EndCursor, Merge, Witnesses, InOrder, FirstFault;
    ComponentRanks();
    var files := ArenaOnly(identity, bytes);
    NoFaultFits(o, files);
    var lines := PendingEvents(Component.Arena, bytes, o.cursors[Component.Arena]);
    PendingTagged(files, o.cursors);
    assert PendingStreams(files, o.cursors) == Tailing.OneStream(Component.Arena, lines);
    forall line | line in lines ensures line.component == Component.Arena {
      assert lines == PendingStreams(files, o.cursors)[Component.Arena.Rank()];
      assert COMPONENTS[line.component.Rank()] == line.component;
    }
    Tailing.OneStreamMerge(Component.Arena, lines);
  }

  lemma PollKeepsTrack(session: Session, slots: Option<U16>, identity: nat, o: Observed, bytes: string, more: string)
    requires Tracks(session, slots, identity, o, bytes)
    requires Poll(session, o, ArenaOnly(identity, bytes + more)).Ok?
    ensures Tracks(session, slots, identity, Poll(session, o, ArenaOnly(identity, bytes + more)).value, bytes + more)
  {
    hide Poll, ConsumeAll, PendingEvents, EndCursor, FoldFrom, LastLineEnd, FreshReplay, ArenaOnly, SeenBelow;
    var cursor, all := o.cursors[Component.Arena], bytes + more;
    LastLineIsBoundary(bytes, more);
    PolledArena(session, o, identity, all);
    FoldIsReplay(session, o.replay, all, cursor, true);
    FoldToLastLine(session, bytes, more, CoreOf(FreshReplay(slots)));
    CursorsAgree(all, cursor);
    PendingBelowEnd(all, cursor);
    SeenFurther(o.replay, cursor.byteOffset, LastLineEnd(all));
    ConsumedSources(session, o.replay, PendingEvents(Component.Arena, all, cursor), LastLineEnd(all));
  }

  lemma {:induction false} PollsKeepTrack(
    session: Session, slots: Option<U16>, identity: nat, o: Observed, bytes: string, history: seq<Files>)
    requires Tracks(session, slots, identity, o, bytes)
    requires Tailing.GrowingHistory(ArenaOnly(identity, bytes), history) && PollRun(session, o, history).Ok?
    ensures var final := Tailing.Final(ArenaOnly(identity, bytes), history);
      && Component.Arena in final && final == ArenaOnly(identity, final[Component.Arena].bytes)
      && Tracks(session, slots, identity, PollRun(session, o, history).value, final[Component.Arena].bytes)
    decreases history
  {
    hide Poll, Tracks;
    if history != [] {
      var next := history[0][Component.Arena].bytes;
      assert next == bytes + next[|bytes|..];
      assert history[0] == ArenaOnly(identity, next);
      PollKeepsTrack(session, slots, identity, o, bytes, next[|bytes|..]);
      PollsKeepTrack(session, slots, identity, Poll(session, o, history[0]).value, next, history[1..]);
    }
  }

  lemma NothingSeen(slots: Option<U16>)
    ensures forall bound: nat :: SeenBelow(FreshReplay(slots), bound)
  {
    hide NewReducer;
  }

  lemma TailRunTracks(session: Session, slots: Option<U16>, identity: nat, bytes: string)
    requires TailAttach.ArenaTail(session, slots, bytes).how.TailRun? && LastMentionStartsRun(bytes)
    ensures Tracks(session, slots, identity, TailAttach.TailObserved(session, slots, ArenaOnly(identity, bytes)), bytes)
  {
    hide TailAttach.FromSnapshot, AttachFull, ConsumeAll, PendingLines, PendingEvents, NaiveLastLine, RunAccepted,
      RunStartsAt, FoldFrom, LastLineEnd, EndCursor, FreshReplay;
    NothingSeen(slots);
    SnapshotIsNoRun(session, slots, bytes);
    var start := NaiveLastLine(bytes, ON_BEGIN).value.lineStart;
    TailRunIsHistory(session, slots, identity, bytes);
    LastLineIsRecord(bytes, ON_BEGIN);
    CursorsAgree(bytes, LogCursor(start, 0));
    PendingBelowEnd(bytes, LogCursor(start, 0));
    ConsumedSources(session, FreshReplay(slots), PendingLines(Component.Arena, bytes, LogCursor(start, 0)),
                    LastLineEnd(bytes));
    ArenaReplay(session, slots, identity, bytes);
    FoldIsReplay(session, FreshReplay(slots), bytes, START_CURSOR, true);
  }

  /** A live attach by run start, followed by any number of successful polls of the growing log, ends with the parser
      and the reducer of one complete attach to the final log. */
  lemma TailThenPollsIsHistory(
    session: Session, slots: Option<U16>, identity: nat, bytes: string, history: seq<Files>)
    requires TailAttach.ArenaTail(session, slots, bytes).how.TailRun? && LastMentionStartsRun(bytes)
    requires Tailing.GrowingHistory(ArenaOnly(identity, bytes), history)
    ensures var o := TailAttach.TailObserved(session, slots, ArenaOnly(identity, bytes));
      var final := Tailing.Final(ArenaOnly(identity, bytes), history);
      PollRun(session, o, history).Ok? ==>
        && AttachFull(session, slots, final).Ok?
        && CoreOf(PollRun(session, o, history).value.replay) == CoreOf(AttachFull(session, slots, final).value.replay)
  {
    hide TailAttach.ArenaTail, TailAttach.TailObserved, AttachFull, PollRun, PendingEvents, ConsumeAll, FoldFrom, FreshReplay,
      LastMentionStartsRun, Tailing.Final;
    var o := TailAttach.TailObserved(session, slots, ArenaOnly(identity, bytes));
    if PollRun(session, o, history).Ok? {
      TailRunTracks(session, slots, identity, bytes);
      PollsKeepTrack(session, slots, identity, o, bytes, history);
      var all := Tailing.Final(ArenaOnly(identity, bytes), history)[Component.Arena].bytes;
      NothingSeen(slots);
      ArenaReplay(session, slots, identity, all);
      FoldIsReplay(session, FreshReplay(slots), all, START_CURSOR, true);
    }
  }

  // The coincidental mention, through the whole attach.

  lemma CoincidenceHeader()
    ensures NaiveLastLine(COINCIDENCE, DRAFT_DECK) == Some(LineMatch(24, true)) && |COINCIDENCE| == 40
  {
    hide LastLineEnd, LastOccurrence;
    CoincidenceLines();
    assert COINCIDENCE[24..38] == COINCIDENCE[24..39][..14] == DRAFT_DECK;
    assert COINCIDENCE[38] == COINCIDENCE[24..39][14] == '7' && COINCIDENCE[39] == LF;
    forall i | 24 < i <= 40 ensures !StartsAt(COINCIDENCE, DRAFT_DECK, i) {
      if i + 14 <= 40 {
        assert COINCIDENCE[i..i + 14][13] == COINCIDENCE[i + 13] && DRAFT_DECK[13] == ':';
      }
    }
    LastOccurrenceUnique(COINCIDENCE, DRAFT_DECK, 40, 24);
    assert COINCIDENCE[..24][24..] == [] && COINCIDENCE[..24][23] == LF;
    LastLineEndUnique(COINCIDENCE[..24], 24);
    assert COINCIDENCE[24..][15] == COINCIDENCE[39];
  }

  /** The last header is never completed. */
  lemma NothingToHydrate(session: Session, slots: Option<U16>)
    ensures |COINCIDENCE| == 40 && TailAttach.SnapshotTail(session, slots, COINCIDENCE, 24).how.AwaitingSnapshot?
  {
    hide NewReducer, NewlineFrom, ClassifyArena, ApplySourcedLine, TailAttach.ScanSnapshot, Apply, ConsumeAll,
      TailRun.Header, SplitTimestamp, TrimLineEnd;
    CoincidenceRecords();
    HeaderLine('7');
    var cursor, scan := LogCursor(24, 0), TailAttach.FreshScan(slots);
    var line := LineAt(Component.Arena, COINCIDENCE, cursor, 39);
    assert line.message == ArenaRecord(COINCIDENCE, 24, 39).message && line.component.Arena?;
    var event := ArenaDeckSnapshotStarted("7", None);
    assert Parse(FRESH_PARSER, line) == (FRESH_PARSER.(readingDeck := true), [event]);
    assert !TailAttach.Completes([event]);
    assert TailAttach.HeaderOf([event]) == Some(TailAttach.Header("7", None));
    TailAttach.ScanUnfolds(session, COINCIDENCE, 24, cursor, scan);
    var read := TailAttach.ReadInto(session, scan, line, TailAttach.Header("7", None));
    TailAttach.ScanUnfolds(session, COINCIDENCE, 24, LogCursor(40, 1), read);
    assert TailAttach.ScanSnapshot(session, COINCIDENCE, 24, cursor, scan).Incomplete?;
  }

  /** On this log the live attach goes by a mention that starts no run, and ends with another reducer than the
      complete history, which recorded a change of run. */
  lemma CoincidenceAccepted(session: Session, slots: Option<U16>)
    ensures var tail := TailAttach.ArenaTail(session, slots, COINCIDENCE);
      && tail.how.TailRun? && !LastMentionStartsRun(COINCIDENCE)
      && !tail.reducer.state.snapshot.draft.exactPhaseProgress
      && HistoryCore(session, slots, 0, COINCIDENCE).reducer.snapshot.draft.exactPhaseProgress
  {
    hide TailAttach.SnapshotTail, AttachFull, SuffixReplay, RunAccepted, RunStartsAt, NaiveLastLine, EndCursor, NewReducer;
    CoincidenceHeader();
    NothingToHydrate(session, slots);
    CoincidentalSuffix(session, slots);
    LastLineBound(COINCIDENCE);
  }

  lemma LastLineBound(bytes: string)
    ensures LastLineEnd(bytes) <= |bytes|
  {
  }
}
