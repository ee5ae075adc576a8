/** Restarting the whole observer from its checkpoint: the cursors keep every record that was consumed before from
    being read again, so the polls that follow cannot tell the difference. */
module ObserverRestart {
  import opened Prelude
  import opened Text
  import opened ArenaState
  import opened ReducerSpec
  import opened ReducerCheckpoint
  import opened LogRecords
  import opened LineGrammar
  import opened LogParser
  import opened LogReader
  import opened KWayMerge
  import opened ObserverSpec
  import WarmRestart
  import SessionProvenance
  import Tailing

  /** The observer that a checkpoint of this one gives back, configured as it was. */
  ghost function Restarted(o: Observed): Result<Observed, RestoreError> {
    match Restore(CheckpointOf(o.replay.reducer.state))
    case Ok(state) => Ok(o.(replay := o.replay.(reducer := Tracked(SetExpectedSlots(state, state.configuredSlots), {}))))
    case Err(error) => Err(error)
  }

  /** The same, remembering more consumed sources. */
  function WiderReplay(r: Replayed, extra: set<EventSource>): Replayed {
    r.(reducer := Tracked(r.reducer.state, r.reducer.seen + extra))
  }

  function Wider(o: Observed, extra: set<EventSource>): Observed {
    o.(replay := WiderReplay(o.replay, extra))
  }

  // Sources and cursors.

  /** Every one of these sources lies before the cursor of its component. */
  ghost predicate Behind(sources: set<EventSource>, cursors: Cursors) {
    forall source, c: Component | source in sources && c.CanEmitEvents() && source.component == c.Filename() ::
      source.byteOffset < CursorAt(cursors, c).byteOffset
  }

  lemma FilenamesDiffer(a: Component, b: Component)
    ensures a.Filename() == b.Filename() ==> a == b
  {
    assert a.Filename()[0] != b.Filename()[0] || a.Filename()[1] != b.Filename()[1] || a == b;
  }

  /** What a read delivers lies between its cursors. */
  lemma {:induction false} PendingBetween(c: Component, bytes: string, cursor: LogCursor)
    requires cursor.byteOffset <= |bytes|
    ensures forall line | line in PendingEvents(c, bytes, cursor) ::
      line.component == c && cursor.byteOffset <= line.byteOffset < EndCursor(bytes, cursor).byteOffset
    decreases |bytes| - cursor.byteOffset
  {
    hide PendingEvents, PendingLines, MightEmitEvent, TrimLineEnd, EndCursor, SplitTimestamp;
    match NewlineFrom(bytes, cursor.byteOffset)
    case None =>
      NoNextRecord(c, bytes, cursor);
    case Some(i) =>
      NextRecord(c, bytes, cursor, i);
      PendingBetween(c, bytes, LogCursor(i + 1, cursor.lineNumber + 1));
  }

  /** The lines of a poll lie between the cursors before and after it. */
  lemma MergedBetween(files: Files, cursors: Cursors, line: RawLogLine)
    requires CursorsFit(files, cursors) && line in PendingMerged(files, cursors)
    ensures var c := line.component;
      && c.CanEmitEvents() && c in files && c in AdvancedCursors(files, cursors)
      && CursorAt(cursors, c).byteOffset <= line.byteOffset
      && line.byteOffset < AdvancedCursors(files, cursors)[c].byteOffset
  {
    hide PendingEvents, Merge, EndCursor;
    ComponentRanks();
    PendingTagged(files, cursors);
    MergeMembers(PendingStreams(files, cursors), line);
    var c := line.component;
    assert COMPONENTS[c.Rank()] == c;
    PendingBetween(c, files[c].bytes, CursorAt(cursors, c));
  }

  /** No polled line was consumed before. */
  lemma PolledAreNew(session: Session, files: Files, cursors: Cursors, extra: set<EventSource>, line: RawLogLine)
    requires CursorsFit(files, cursors) && Behind(extra, cursors) && line in PendingMerged(files, cursors)
    ensures SourceOf(session, line) !in extra
  {
    hide PendingMerged, AdvancedCursors;
    MergedBetween(files, cursors, line);
  }

  // Consuming lines.

  lemma {:induction false} ConsumeForgets(
    session: Session, r: Replayed, lines: seq<RawLogLine>, extra: set<EventSource>)
    requires forall line | line in lines :: SourceOf(session, line) !in extra
    ensures ConsumeAll(session, WiderReplay(r, extra), lines) == WiderReplay(ConsumeAll(session, r, lines), extra)
    decreases lines
  {
    hide Parse, ConsumeLine;
    if lines != [] {
      assert lines[0] in lines;
      var next := Consume(session, r, lines[0]);
      assert (r.reducer.seen + {SourceOf(session, lines[0])}) + extra
          == (r.reducer.seen + extra) + {SourceOf(session, lines[0])};
      assert Consume(session, WiderReplay(r, extra), lines[0]) == WiderReplay(next, extra);
      ConsumeForgets(session, next, lines[1..], extra);
    }
  }

  lemma {:induction false} ConsumedSources(session: Session, r: Replayed, lines: seq<RawLogLine>, source: EventSource)
    requires source in ConsumeAll(session, r, lines).reducer.seen
    ensures source in r.reducer.seen || exists line :: line in lines && source == SourceOf(session, line)
    decreases lines
  {
    hide Parse, ConsumeLine;
    if lines != [] {
      assert lines[0] in lines;
      ConsumedSources(session, Consume(session, r, lines[0]), lines[1..], source);
    }
  }

  /** The cursors of event components never go back. */
  lemma CursorsAdvance(files: Files, cursors: Cursors, sources: set<EventSource>)
    requires CursorsFit(files, cursors) && Behind(sources, cursors)
    ensures Behind(sources, cursors + AdvancedCursors(files, cursors))
  {
    hide EndCursor;
  }

  /** What a poll has consumed lies before the cursors it leaves. */
  lemma DrainedBehind(session: Session, r: Replayed, files: Files, cursors: Cursors)
    requires CursorsFit(files, cursors) && Behind(r.reducer.seen, cursors)
    ensures Behind(Drained(session, r, files, cursors).reducer.seen, cursors + AdvancedCursors(files, cursors))
  {
    hide PendingMerged, ConsumeAll, AdvancedCursors;
    var at := cursors + AdvancedCursors(files, cursors);
    CursorsAdvance(files, cursors, r.reducer.seen);
    forall source, c: Component |
      source in Drained(session, r, files, cursors).reducer.seen && c.CanEmitEvents() && source.component == c.Filename()
      ensures source.byteOffset < CursorAt(at, c).byteOffset
    {
      ConsumedSources(session, r, PendingMerged(files, cursors), source);
      if source !in r.reducer.seen {
        var line :| line in PendingMerged(files, cursors) && source == SourceOf(session, line);
        MergedBetween(files, cursors, line);
        FilenamesDiffer(c, line.component);
      }
    }
  }

  lemma AttachedBehind(session: Session, slots: Option<U16>, files: Files)
    requires files != map[]
    ensures var o := AttachFull(session, slots, files).value; Behind(o.replay.reducer.seen, o.cursors)
  {
    hide Drained, NewReducer, Witnesses, AdvancedCursors;
    DrainedBehind(session, FreshReplay(slots), files, map[]);
    assert map[] + AdvancedCursors(files, map[]) == AdvancedCursors(files, map[]);
  }

  lemma {:induction false} PollsBehind(session: Session, o: Observed, history: seq<Files>)
    requires Behind(o.replay.reducer.seen, o.cursors) && PollRun(session, o, history).Ok?
    ensures var r := PollRun(session, o, history).value; Behind(r.replay.reducer.seen, r.cursors)
    decreases history
  {
    hide FirstFault, Drained, AdvancedCursors, Witnesses, Behind, InOrder, PendingMerged;
    if history != [] {
      NoFaultFits(o, history[0]);
      DrainedBehind(session, o.replay, history[0], o.cursors);
      PollsBehind(session, Poll(session, o, history[0]).value, history[1..]);
    }
  }

  // The polls after a restart.

  lemma SameFaults(o: Observed, extra: set<EventSource>, files: Files, from: nat)
    requires from <= 5
    ensures FirstFault(Wider(o, extra), files, from) == FirstFault(o, files, from)
    decreases 5 - from
  {
    hide WitnessMatches;
    if from < 5 {
      SameFaults(o, extra, files, from + 1);
    }
  }

  /** Sources before the cursors make no difference to a poll. */
  lemma PollForgets(session: Session, o: Observed, extra: set<EventSource>, files: Files)
    requires Behind(extra, o.cursors)
    ensures match Poll(session, o, files)
      case Ok(polled) => Poll(session, Wider(o, extra), files) == Ok(Wider(polled, extra)) && Behind(extra, polled.cursors)
      case Err(error) => Poll(session, Wider(o, extra), files) == Err(error)
  {
    hide FirstFault, ConsumeAll, AdvancedCursors, Witnesses, Behind, InOrder, PendingMerged;
    SameFaults(o, extra, files, 0);
    if PollFault(o, files).None? {
      NoFaultFits(o, files);
      CursorsAdvance(files, o.cursors, extra);
      forall line | line in PendingMerged(files, o.cursors) ensures SourceOf(session, line) !in extra {
        PolledAreNew(session, files, o.cursors, extra, line);
      }
      ConsumeForgets(session, o.replay, PendingMerged(files, o.cursors), extra);
    }
  }

  lemma {:induction false} PollsForget(session: Session, o: Observed, extra: set<EventSource>, history: seq<Files>)
    requires Behind(extra, o.cursors)
    ensures match PollRun(session, o, history)
      case Ok(polled) => PollRun(session, Wider(o, extra), history) == Ok(Wider(polled, extra))
      case Err(error) => PollRun(session, Wider(o, extra), history) == Err(error)
    decreases history
  {
    hide Poll, Behind, Wider;
    if history != [] {
      PollForgets(session, o, extra, history[0]);
      if Poll(session, o, history[0]).Ok? {
        PollsForget(session, Poll(session, o, history[0]).value, extra, history[1..]);
      }
    }
  }

  // The reducer inside the observer.

  lemma {:induction false} ConsumeKeepsWellFormed(session: Session, r: Replayed, lines: seq<RawLogLine>)
    requires WarmRestart.WellFormed(r.reducer.state)
    ensures WarmRestart.WellFormed(ConsumeAll(session, r, lines).reducer.state)
    decreases lines
  {
    hide Parse, ConsumeLine, WarmRestart.WellFormed;
    if lines != [] {
      WarmRestart.ConsumeKeepsWellFormed(r.reducer.state, SourceOf(session, lines[0]), Parse(r.parser, lines[0]).1);
      ConsumeKeepsWellFormed(session, Consume(session, r, lines[0]), lines[1..]);
    }
  }

  lemma {:induction false} PollsKeepWellFormed(session: Session, o: Observed, history: seq<Files>)
    requires WarmRestart.WellFormed(o.replay.reducer.state) && PollRun(session, o, history).Ok?
    ensures WarmRestart.WellFormed(PollRun(session, o, history).value.replay.reducer.state)
    decreases history
  {
    hide FirstFault, ConsumeAll, AdvancedCursors, Witnesses, InOrder, PendingMerged, WarmRestart.WellFormed;
    if history != [] {
      NoFaultFits(o, history[0]);
      ConsumeKeepsWellFormed(session, o.replay, PendingMerged(history[0], o.cursors));
      PollsKeepWellFormed(session, Poll(session, o, history[0]).value, history[1..]);
    }
  }

  /** The checkpoint of a well-formed observer is accepted if and only if its recorded sources are named, and then
      only the consumed sources are lost. */
  lemma RestartedIs(o: Observed)
    requires WarmRestart.WellFormed(o.replay.reducer.state)
    ensures Restarted(o).Ok? <==> WarmRestart.NamedProvenance(o.replay.reducer.state.observations)
    ensures Restarted(o).Ok? ==> Wider(Restarted(o).value, o.replay.reducer.seen) == o
    ensures Restarted(o).Err? ==> Restarted(o).error == InvalidProvenance
  {
    hide GoodCounts, GoodEntities, NamedSource, DeckCards, DeckStateOf;
    var s := o.replay.reducer.state;
    WarmRestart.RestoreAcceptsWellFormed(s);
    assert SetExpectedSlots(s, s.configuredSlots) == SyncDeck(s);
    assert SyncDeck(s) == s;
    assert {} + o.replay.reducer.seen == o.replay.reducer.seen;
  }

  /** Attach, poll, restart from the checkpoint and poll on. The checkpoint is accepted if and only if the session has a
      name or nothing has been recorded; then every poll answers as if the observer had never stopped, and ends in the
      same observer but for the sources consumed before the restart. */
  lemma RestartThenPolls(
    session: Session, slots: Option<U16>, files: Files, before: seq<Files>, after: seq<Files>)
    requires files != map[]
    requires PollRun(session, AttachFull(session, slots, files).value, before).Ok?
    ensures var o := PollRun(session, AttachFull(session, slots, files).value, before).value;
      && (Restarted(o).Ok? <==> Trim(session.id) != "" || o.replay.reducer.state.observations == map[])
      && (Restarted(o).Ok? ==>
            match PollRun(session, Restarted(o).value, after)
            case Ok(polled) => PollRun(session, o, after) == Ok(Wider(polled, o.replay.reducer.seen))
            case Err(error) => PollRun(session, o, after) == Err(error))
  {
    hide Poll, PollRun, Restarted, Wider, Behind, ConsumeAll, NewReducer, Witnesses, AdvancedCursors, PendingMerged,
      WarmRestart.WellFormed, WarmRestart.NamedProvenance, SessionProvenance.OfSession, Trim;
    var attached := AttachFull(session, slots, files).value;
    var o := PollRun(session, attached, before).value;
    AttachedBehind(session, slots, files);
    PollsBehind(session, attached, before);
    WarmRestart.NewReducerWellFormed(slots);
    Tailing.AttachedCursorsFit(files);
    ConsumeKeepsWellFormed(session, FreshReplay(slots), PendingMerged(files, map[]));
    PollsKeepWellFormed(session, attached, before);
    SessionProvenance.AttachOfSession(session, slots, files);
    SessionProvenance.PollsKeepSession(session, attached, before);
    SessionProvenance.NamedIff(session, o.replay.reducer.state.observations);
    RestartedIs(o);
    RestartedCursors(o);
    if Restarted(o).Ok? {
      PollsForget(session, Restarted(o).value, o.replay.reducer.seen, after);
    }
  }

  lemma RestartedCursors(o: Observed)
    ensures Restarted(o).Ok? ==> Restarted(o).value.cursors == o.cursors
  {
    hide Restore, SetExpectedSlots;
  }

  /** So a restart in the middle of tailing still ends where one full attach to the final files ends. */
  lemma RestartRefinesReplay(
    session: Session, slots: Option<U16>, o: Observed, files: Files, after: seq<Files>)
    requires Tailing.UpToDate(session, slots, o, files) && Tailing.GrowingHistory(files, after)
    requires Restarted(o).Ok? && PollRun(session, Restarted(o).value, after).Ok?
    ensures AttachFull(session, slots, Tailing.Final(files, after))
         == Ok(Wider(PollRun(session, Restarted(o).value, after).value, o.replay.reducer.seen))
  {
    hide Poll, PollRun, Restarted, Wider, Behind, ConsumeAll, NewReducer, Witnesses, AdvancedCursors, PendingMerged,
      WarmRestart.WellFormed, WarmRestart.NamedProvenance, Tailing.Gapless, Tailing.AttachedLines, Tailing.GrowingHistory;
    AttachedBehind(session, slots, files);
    WarmRestart.NewReducerWellFormed(slots);
    Tailing.AttachedCursorsFit(files);
    ConsumeKeepsWellFormed(session, FreshReplay(slots), PendingMerged(files, map[]));
    RestartedIs(o);
    RestartedCursors(o);
    PollsForget(session, Restarted(o).value, o.replay.reducer.seen, after);
    Tailing.TailingRefinesReplay(session, slots, o, files, after);
  }
}
