/** Incremental tailing refines full replay. */
module Tailing {
  import opened Prelude
  import opened LogRecords
  import opened LineGrammar
  import opened LogReader
  import opened KWayMerge
  import opened ObserverSpec

  /** The same files, each with bytes appended. */
  predicate Grows(old_: Files, new_: Files) {
    && old_.Keys == new_.Keys
    && forall c | c in old_ :: old_[c].identity == new_[c].identity && old_[c].bytes <= new_[c].bytes
  }

  predicate GrowingHistory(files: Files, history: seq<Files>)
    decreases history
  {
    history == [] || (Grows(files, history[0]) && GrowingHistory(history[0], history[1..]))
  }

  function Final(files: Files, history: seq<Files>): Files
    decreases history
  {
    if history == [] then files else Final(history[0], history[1..])
  }

  function Appended(old_: Files, new_: Files, c: Component): string
    requires Grows(old_, new_) && c in old_
  {
    new_[c].bytes[|old_[c].bytes|..]
  }

  lemma AppendedBytes(old_: Files, new_: Files, c: Component)
    requires Grows(old_, new_) && c in old_
    ensures new_[c].bytes == old_[c].bytes + Appended(old_, new_, c)
  {
  }

  // Cursors of an attached observer.

  /** The cursors a full attach to these files ends with. */
  function AttachedCursors(files: Files): Cursors {
    AdvancedCursors(files, map[])
  }

  lemma AttachedCursorsFit(files: Files)
    ensures CursorsFit(files, map[]) && CursorsFit(files, AttachedCursors(files))
    ensures AttachedCursors(files).Keys == files.Keys
    ensures forall c | c in files :: IsBoundary(files[c].bytes, AttachedCursors(files)[c].byteOffset)
  {
    forall c | c in files ensures IsBoundary(files[c].bytes, AttachedCursors(files)[c].byteOffset) {
      CursorsAgree(files[c].bytes, START_CURSOR);
    }
  }

  function AttachedWitnesses(files: Files): map<Component, TailWitness> {
    AttachedCursorsFit(files);
    Witnesses(files, AttachedCursors(files))
  }

  lemma GrownFit(old_: Files, new_: Files)
    requires Grows(old_, new_)
    ensures CursorsFit(new_, AttachedCursors(old_)) && CursorsFit(new_, map[])
  {
    AttachedCursorsFit(old_);
    forall c | c in new_ ensures CursorAt(AttachedCursors(old_), c).byteOffset <= |new_[c].bytes| {
      AppendedBytes(old_, new_, c);
    }
  }

  /** Polling from the old cursors ends where attaching to the new files ends. */
  lemma CursorsCatchUp(old_: Files, new_: Files)
    requires Grows(old_, new_)
    ensures CursorsFit(new_, AttachedCursors(old_))
    ensures AttachedCursors(old_) + AdvancedCursors(new_, AttachedCursors(old_)) == AttachedCursors(new_)
  {
    hide Records, DurableEnd;
    GrownFit(old_, new_);
    var cursors := AttachedCursors(old_);
    forall c | c in new_
      ensures NextCursor(c, new_[c].bytes, CursorAt(cursors, c)) == NextCursor(c, new_[c].bytes, START_CURSOR)
    {
      AppendedBytes(old_, new_, c);
      if c.CanEmitEvents() {
        PendingGrows(c, old_[c].bytes, Appended(old_, new_, c), START_CURSOR);
      }
    }
  }

  /** Attaching to the new files reads each stream as the old one followed by what a poll would read. */
  lemma StreamsExtend(old_: Files, new_: Files)
    requires Grows(old_, new_)
    ensures CursorsFit(new_, AttachedCursors(old_)) && CursorsFit(old_, map[]) && CursorsFit(new_, map[])
    ensures PendingStreams(new_, map[])
         == Extend(PendingStreams(old_, map[]), PendingStreams(new_, AttachedCursors(old_)))
  {
    hide PendingEvents, EndCursor;
    GrownFit(old_, new_);
    AttachedCursorsFit(old_);
    var cursors := AttachedCursors(old_);
    forall i | 0 <= i < 5
      ensures StreamOf(new_, map[], COMPONENTS[i])
           == StreamOf(old_, map[], COMPONENTS[i]) + StreamOf(new_, cursors, COMPONENTS[i])
    {
      var c := COMPONENTS[i];
      if c.CanEmitEvents() && c in new_ {
        AppendedBytes(old_, new_, c);
        PendingGrows(c, old_[c].bytes, Appended(old_, new_, c), START_CURSOR);
      }
    }
  }

  // One poll.

  /** The lines a full attach to these files consumes. */
  ghost function AttachedLines(files: Files): seq<RawLogLine> {
    AttachedCursorsFit(files);
    PendingMerged(files, map[])
  }

  /** The lines a poll consumes once the files have grown. */
  ghost function PolledLines(old_: Files, new_: Files): seq<RawLogLine>
    requires Grows(old_, new_)
  {
    GrownFit(old_, new_);
    PendingMerged(new_, AttachedCursors(old_))
  }

  /** A poll continues the attach exactly when no newly read line belongs below a line already consumed. */
  ghost predicate PollContinues(old_: Files, new_: Files)
    requires Grows(old_, new_)
  {
    GrownFit(old_, new_);
    Continues(AttachedLines(old_), PendingStreams(new_, AttachedCursors(old_)))
  }

  /** The lines of attach then poll are the lines of one attach to the grown files if and only if the poll
      continues the attach. */
  lemma PollMatchesReplayIff(old_: Files, new_: Files)
    requires Grows(old_, new_)
    ensures AttachedLines(new_) == AttachedLines(old_) + PolledLines(old_, new_) <==> PollContinues(old_, new_)
  {
    hide PendingStreams, Merge, Continues, Extend;
    GrownFit(old_, new_);
    AttachedCursorsFit(old_);
    AttachedCursorsFit(new_);
    StreamsExtend(old_, new_);
    PendingTagged(old_, map[]);
    PendingTagged(new_, AttachedCursors(old_));
    PendingTagged(new_, map[]);
    InstalmentsMatchIff(PendingStreams(old_, map[]), PendingStreams(new_, AttachedCursors(old_)));
  }

  // The guard of a poll.

  function LastOrder(lines: seq<RawLogLine>): Option<LineOrder> {
    if lines == [] then None else Some(OrderOf(lines[|lines| - 1]))
  }

  lemma {:induction false} InOrderIsSorted(before: seq<RawLogLine>, lines: seq<RawLogLine>)
    ensures Sorted(before) && InOrder(LastOrder(before), lines) ==> Sorted(before + lines)
    decreases lines
  {
    hide Before, Sorted;
    if lines == [] {
      assert before + lines == before;
    } else if Sorted(before) && InOrder(LastOrder(before), lines) {
      var more := before + [lines[0]];
      SortedSnoc(before, lines[0]);
      assert LastOrder(more) == Some(OrderOf(lines[0]));
      assert before + lines == more + lines[1..];
      InOrderIsSorted(more, lines[1..]);
    }
  }

  lemma SortedSnoc(before: seq<RawLogLine>, line: RawLogLine)
    requires Sorted(before)
    requires before != [] ==> !Precedes(line, before[|before| - 1])
    ensures Sorted(before + [line])
  {
    hide Precedes;
    var all := before + [line];
    forall i, j | 0 <= i < j < |all| ensures !Precedes(all[j], all[i]) {
      if j == |before| && i < |before| - 1 {
        NotAfterTransitive(before[i], before[|before| - 1], line);
      }
    }
  }

  lemma {:induction false} LastOrderConsumed(session: Session, r: Replayed, lines: seq<RawLogLine>)
    ensures ConsumeAll(session, r, lines).lastOrder == if lines == [] then r.lastOrder else LastOrder(lines)
    decreases lines
  {
    hide ReducerSpec.ApplySourcedLine, LogParser.Parse;
    if lines != [] {
      LastOrderConsumed(session, Consume(session, r, lines[0]), lines[1..]);
    }
  }

  // A single component's lines.

  function OneStream(c: Component, lines: seq<RawLogLine>): Streams {
    seq(5, i requires 0 <= i < 5 => if i == c.Rank() then lines else [])
  }

  lemma OneStreamMerge(c: Component, lines: seq<RawLogLine>)
    requires c.Rank() < 5 && forall line | line in lines :: line.component == c
    ensures Tagged(OneStream(c, lines)) && Merge(OneStream(c, lines)) == lines
    decreases lines
  {
    hide Merge, Precedes;
    var streams := OneStream(c, lines);
    if lines == [] {
      SizeZero(streams);
      var _ := MergeCases(streams);
    } else {
      OneStreamMerge(c, lines[1..]);
      OneStreamHead(c, lines);
      MergeStep(streams, c.Rank());
    }
  }

  lemma OneStreamHead(c: Component, lines: seq<RawLogLine>)
    requires c.Rank() < 5 && lines != []
    ensures IsLeastHead(OneStream(c, lines), c.Rank()) && Pop(OneStream(c, lines), c.Rank()) == OneStream(c, lines[1..])
  {
    hide Precedes;
  }

  // When the order check is enough: the poll compares with the last key, not with the largest.

  /** The least order of component `c` that the check lets through after `last`. */
  function NextOrder(last: LineOrder, c: Component): LineOrder {
    var later := if last.timestamp.Some? then last.timestamp.value + 1 else 0;
    LineOrder(if last.component.Rank() < c.Rank() then last.timestamp else Some(later), c, 0)
  }

  lemma NextOrderIsLeast(last: LineOrder, order: LineOrder)
    requires order.component != last.component && !Before(order, last)
    ensures !Before(order, NextOrder(last, order.component)) && !Before(NextOrder(last, order.component), last)
  {
  }

  lemma NotBeforeTransitive(a: LineOrder, b: LineOrder, c: LineOrder)
    requires !Before(b, a) && !Before(c, b)
    ensures !Before(c, a)
  {
  }

  /** No component that can still deliver lines could come in after the last line and yet below a line read since
      that component's own last one. */
  ghost predicate Gapless(lines: seq<RawLogLine>, present: set<Component>) {
    forall c: Component, i |
      c in present && c.CanEmitEvents() && 0 <= i < |lines| && NoneFrom(lines, i, c.Rank()) ::
      !Before(NextOrder(OrderOf(lines[|lines| - 1]), c), OrderOf(lines[i]))
  }

  /** What later reads of these components can deliver. */
  ghost predicate LaterStreams(later: Streams, present: set<Component>) {
    && |later| == 5 && Tagged(later)
    && forall c: Component :: (c in present && c.CanEmitEvents()) || later[c.Rank()] == []
  }

  lemma {:induction false} CheckedAfter(last: LineOrder, lines: seq<RawLogLine>, line: RawLogLine)
    requires InOrder(Some(last), lines) && line in lines
    ensures !Before(OrderOf(line), last)
    decreases lines
  {
    hide Before;
    if line != lines[0] {
      CheckedAfter(OrderOf(lines[0]), lines[1..], line);
      NotBeforeTransitive(last, OrderOf(lines[0]), OrderOf(line));
    }
  }

  lemma GaplessSuffices(merged: seq<RawLogLine>, present: set<Component>, later: Streams)
    requires Gapless(merged, present) && LaterStreams(later, present) && InOrder(LastOrder(merged), Merge(later))
    ensures Continues(merged, later)
  {
    hide Before, Merge, InOrder, NextOrder;
    forall c, i | 0 <= c < 5 && later[c] != [] && 0 <= i < |merged| && NoneFrom(merged, i, c)
      ensures Precedes(merged[i], later[c][0])
    {
      var last := OrderOf(merged[|merged| - 1]);
      var head := later[c][0];
      HeadComponent(later, c);
      MergeMembers(later, head);
      CheckedAfter(last, Merge(later), head);
      ComponentRanks();
      var component := COMPONENTS[c];
      assert component.Rank() == c && head.component == component;
      assert merged[i].component.Rank() != c && merged[|merged| - 1].component.Rank() != c;
      NextOrderIsLeast(last, OrderOf(head));
      NotBeforeTransitive(OrderOf(merged[i]), NextOrder(last, component), OrderOf(head));
      PrecedesTotal(merged[i], head);
    }
  }

  /** A single later line that the check lets through and that belongs further up. */
  lemma GapBreaks(merged: seq<RawLogLine>, present: set<Component>) returns (later: Streams)
    requires !Gapless(merged, present)
    ensures LaterStreams(later, present)
    ensures InOrder(LastOrder(merged), Merge(later)) && !Continues(merged, later)
  {
    hide Before, Merge, NextOrder;
    var c: Component, i :| c in present && c.CanEmitEvents() && 0 <= i < |merged| && NoneFrom(merged, i, c.Rank())
      && Before(NextOrder(OrderOf(merged[|merged| - 1]), c), OrderOf(merged[i]));
    var last := OrderOf(merged[|merged| - 1]);
    var line := RawLogLine(c, 1, 0, NextOrder(last, c).timestamp, "", "");
    ComponentRanks();
    later := OneStream(c, [line]);
    OneStreamMerge(c, [line]);
    assert OrderOf(line) == NextOrder(last, c) by {
      assert NextOrder(last, c).component == c && NextOrder(last, c).byteOffset == 0 by { NextOrderShape(last, c); }
    }
    NextOrderShape(last, c);
    assert merged[|merged| - 1].component.Rank() != c.Rank();
    NextOrderIsLeast(last, NextOrder(last, c));
    assert InOrder(Some(last), [line]) by {
      assert InOrder(Some(OrderOf(line)), [line][1..]);
    }
    assert later[c.Rank()][0] == line;
    BeforeAsymmetric(OrderOf(line), OrderOf(merged[i]));
  }

  lemma NextOrderShape(last: LineOrder, c: Component)
    ensures NextOrder(last, c).component == c && NextOrder(last, c).byteOffset == 0
    ensures last.component != c ==> !Before(NextOrder(last, c), last)
  {
  }

  lemma BeforeAsymmetric(a: LineOrder, b: LineOrder)
    ensures Before(a, b) ==> !Before(b, a)
  {
  }

  /** The order check of a poll makes every later reading continue the attach if and only if the attach left no gap. */
  lemma OrderCheckSufficesIff(merged: seq<RawLogLine>, present: set<Component>)
    ensures Gapless(merged, present) <==>
      forall later | LaterStreams(later, present) && InOrder(LastOrder(merged), Merge(later)) ::
        Continues(merged, later)
  {
    hide Gapless, Continues, InOrder, Merge, Tagged;
    if Gapless(merged, present) {
      forall later | LaterStreams(later, present) && InOrder(LastOrder(merged), Merge(later))
        ensures Continues(merged, later)
      {
        GaplessSuffices(merged, present, later);
      }
    } else {
      var later := GapBreaks(merged, present);
    }
  }

  /** Lines read in key order leave no gap. */
  lemma SortedIsGapless(merged: seq<RawLogLine>, present: set<Component>)
    requires Sorted(merged)
    ensures Gapless(merged, present)
  {
    hide Before, NextOrder;
    forall c: Component, i |
      c in present && c.CanEmitEvents() && 0 <= i < |merged| && NoneFrom(merged, i, c.Rank())
      ensures !Before(NextOrder(OrderOf(merged[|merged| - 1]), c), OrderOf(merged[i]))
    {
      var last := merged[|merged| - 1];
      assert last.component.Rank() != c.Rank();
      NextOrderShape(OrderOf(last), c);
      assert !Before(OrderOf(last), OrderOf(merged[i])) by {
        BeforeAsymmetric(OrderOf(last), OrderOf(last));
        assert i < |merged| - 1 ==> !Precedes(last, merged[i]);
      }
      NotBeforeTransitive(OrderOf(merged[i]), OrderOf(last), NextOrder(OrderOf(last), c));
    }
  }

  /** Neither does a single component, in whatever order it was read. */
  lemma SingleIsGapless(lines: seq<RawLogLine>, c: Component)
    requires forall line | line in lines :: line.component == c
    ensures Gapless(lines, {c})
  {
    hide Before, NextOrder;
    forall i | 0 <= i < |lines| ensures !NoneFrom(lines, i, c.Rank()) {
      assert lines[i] in lines && lines[i].component.Rank() == c.Rank();
    }
  }

  /** Checked lines after a gapless reading leave no gap. */
  lemma GaplessConcat(merged: seq<RawLogLine>, more: seq<RawLogLine>, present: set<Component>)
    requires Gapless(merged, present) && InOrder(LastOrder(merged), more)
    ensures Gapless(merged + more, present)
  {
    hide Before, NextOrder, InOrder;
    if more == [] {
      assert merged + more == merged;
    } else {
      var all := merged + more;
      var last := OrderOf(all[|all| - 1]);
      forall c: Component, i |
        c in present && c.CanEmitEvents() && 0 <= i < |all| && NoneFrom(all, i, c.Rank())
        ensures !Before(NextOrder(last, c), OrderOf(all[i]))
      {
        assert all[|all| - 1].component.Rank() != c.Rank();
        NextOrderShape(last, c);
        if i < |merged| {
          GapCarries(merged, more, c, i);
        } else {
          LastIsLargest(LastOrder(merged), more, i - |merged|);
          NotBeforeTransitive(OrderOf(all[i]), last, NextOrder(last, c));
        }
      }
    }
  }

  lemma GapCarries(merged: seq<RawLogLine>, more: seq<RawLogLine>, c: Component, i: nat)
    requires more != [] && InOrder(LastOrder(merged), more) && i < |merged|
    requires NoneFrom(merged + more, i, c.Rank())
    requires NoneFrom(merged, i, c.Rank()) ==>
      !Before(NextOrder(OrderOf(merged[|merged| - 1]), c), OrderOf(merged[i]))
    ensures !Before(NextOrder(OrderOf(more[|more| - 1]), c), OrderOf(merged[i]))
  {
    hide Before, NextOrder, InOrder;
    var all := merged + more;
    assert forall j | i <= j < |merged| :: all[j] == merged[j];
    assert all[|merged| - 1] == merged[|merged| - 1] && all[|all| - 1] == more[|more| - 1];
    var last, newLast := OrderOf(merged[|merged| - 1]), OrderOf(more[|more| - 1]);
    CheckedAfter(last, more, more[|more| - 1]);
    NextOrderShape(newLast, c);
    NotBeforeTransitive(last, newLast, NextOrder(newLast, c));
    NextOrderIsLeast(last, NextOrder(newLast, c));
    NotBeforeTransitive(OrderOf(merged[i]), NextOrder(last, c), NextOrder(newLast, c));
  }

  lemma {:induction false} LastIsLargest(last: Option<LineOrder>, lines: seq<RawLogLine>, i: nat)
    requires InOrder(last, lines) && i < |lines|
    ensures !Before(OrderOf(lines[|lines| - 1]), OrderOf(lines[i]))
    decreases lines
  {
    hide Before;
    if i > 0 {
      LastIsLargest(Some(OrderOf(lines[0])), lines[1..], i - 1);
    } else if |lines| > 1 {
      CheckedAfter(OrderOf(lines[0]), lines[1..], lines[|lines| - 1]);
    } else {
      BeforeAsymmetric(OrderOf(lines[0]), OrderOf(lines[0]));
    }
  }

  // Whole runs.

  /** The observer is what one full attach to these files would have produced, without a gap. */
  ghost predicate UpToDate(session: Session, slots: Option<U16>, o: Observed, files: Files) {
    && files != map[]
    && AttachFull(session, slots, files) == Ok(o)
    && Gapless(AttachedLines(files), files.Keys)
  }

  lemma WitnessSurvivesGrowth(old_: Files, new_: Files, c: Component)
    requires Grows(old_, new_) && c in old_
    requires AttachedCursors(old_)[c].byteOffset <= |old_[c].bytes|
    ensures WitnessMatches(new_[c].bytes, WitnessAt(old_[c].bytes, AttachedCursors(old_)[c].byteOffset))
  {
    AppendedBytes(old_, new_, c);
  }

  /** While files only grow, the only thing that can stop a poll is the order check. */
  lemma GrowthHasNoFault(session: Session, slots: Option<U16>, o: Observed, old_: Files, new_: Files, from: nat)
    requires AttachFull(session, slots, old_) == Ok(o) && Grows(old_, new_) && from <= 5
    ensures FirstFault(o, new_, from).None?
    decreases 5 - from
  {
    hide Drained;
    if from < 5 {
      GrowthHasNoFault(session, slots, o, old_, new_, from + 1);
      var c := COMPONENTS[from];
      AttachedCursorsFit(old_);
      GrownFit(old_, new_);
      if c in new_ {
        WitnessSurvivesGrowth(old_, new_, c);
      }
    }
  }

  lemma AttachedLastOrder(session: Session, slots: Option<U16>, o: Observed, files: Files)
    requires AttachFull(session, slots, files) == Ok(o)
    ensures o.replay == ConsumeAll(session, FreshReplay(slots), AttachedLines(files))
    ensures o.replay.lastOrder == LastOrder(AttachedLines(files))
    ensures o.cursors == AttachedCursors(files)
  {
    hide Merge, PendingStreams, Consume;
    AttachedCursorsFit(files);
    PendingTagged(files, map[]);
    LastOrderConsumed(session, FreshReplay(slots), AttachedLines(files));
  }

  /** One successful poll of grown files keeps the observer up to date. */
  lemma PollStaysUpToDate(session: Session, slots: Option<U16>, o: Observed, old_: Files, new_: Files)
    requires UpToDate(session, slots, o, old_) && Grows(old_, new_)
    ensures Poll(session, o, new_).Ok? <==> InOrder(LastOrder(AttachedLines(old_)), PolledLines(old_, new_))
    ensures Poll(session, o, new_).Ok? ==>
      && UpToDate(session, slots, Poll(session, o, new_).value, new_)
      && (Sorted(AttachedLines(old_)) ==> Sorted(AttachedLines(new_)))
    ensures Poll(session, o, new_).Err? ==> Poll(session, o, new_).error == OutOfOrder
  {
    hide Merge, PendingStreams, Consume, InOrder, Sorted, FirstFault, Continues, Gapless;
    GrowthHasNoFault(session, slots, o, old_, new_, 0);
    AttachedLastOrder(session, slots, o, old_);
    GrownFit(old_, new_);
    if InOrder(LastOrder(AttachedLines(old_)), PolledLines(old_, new_)) {
      PolledIsAttached(session, slots, o, old_, new_);
    }
  }

  lemma PolledIsAttached(session: Session, slots: Option<U16>, o: Observed, old_: Files, new_: Files)
    requires UpToDate(session, slots, o, old_) && Grows(old_, new_)
    requires InOrder(LastOrder(AttachedLines(old_)), PolledLines(old_, new_))
    ensures CursorsFit(new_, o.cursors)
    ensures AttachFull(session, slots, new_) == Ok(PolledState(session, o, new_))
    ensures Gapless(AttachedLines(new_), new_.Keys)
    ensures Sorted(AttachedLines(old_)) ==> Sorted(AttachedLines(new_))
  {
    hide ConsumeAll, PendingMerged, InOrder, Sorted, Gapless, Witnesses, AdvancedCursors, FreshReplay;
    AttachedLastOrder(session, slots, o, old_);
    GrownFit(old_, new_);
    AttachedCursorsFit(new_);
    PolledLinesContinue(session, slots, old_, new_);
    CursorsCatchUp(old_, new_);
    SameEvidence(o, old_, new_);
  }

  /** The lines of a checked poll, consumed after those of the attach, are the lines of one attach. */
  lemma PolledLinesContinue(session: Session, slots: Option<U16>, old_: Files, new_: Files)
    requires Grows(old_, new_) && Gapless(AttachedLines(old_), old_.Keys)
    requires InOrder(LastOrder(AttachedLines(old_)), PolledLines(old_, new_))
    ensures Gapless(AttachedLines(new_), new_.Keys)
    ensures Sorted(AttachedLines(old_)) ==> Sorted(AttachedLines(new_))
    ensures ConsumeAll(session, FreshReplay(slots), AttachedLines(new_))
         == ConsumeAll(session, ConsumeAll(session, FreshReplay(slots), AttachedLines(old_)), PolledLines(old_, new_))
  {
    hide Merge, PendingStreams, Consume, ConsumeAll, InOrder, Sorted, Continues, Gapless, LaterStreams, FreshReplay;
    var merged, later := AttachedLines(old_), PolledLines(old_, new_);
    GrownFit(old_, new_);
    AttachedCursorsFit(old_);
    PendingTagged(new_, AttachedCursors(old_));
    PolledAreLater(old_, new_);
    InOrderIsSorted(merged, later);
    GaplessSuffices(merged, old_.Keys, PendingStreams(new_, AttachedCursors(old_)));
    GaplessConcat(merged, later, old_.Keys);
    PollMatchesReplayIff(old_, new_);
    ConsumeConcat(session, FreshReplay(slots), merged, later);
  }

  lemma PolledAreLater(old_: Files, new_: Files)
    requires Grows(old_, new_)
    ensures CursorsFit(new_, AttachedCursors(old_))
    ensures LaterStreams(PendingStreams(new_, AttachedCursors(old_)), old_.Keys)
  {
    hide PendingEvents;
    GrownFit(old_, new_);
    PendingTagged(new_, AttachedCursors(old_));
    ComponentRanks();
  }

  lemma SameEvidence(o: Observed, old_: Files, new_: Files)
    requires Grows(old_, new_)
    requires o.cursors == AttachedCursors(old_)
    requires o.witnesses == AttachedWitnesses(old_)
    requires o.identities == map c | c in old_ :: old_[c].identity
    ensures (o.witnesses - new_.Keys) + AttachedWitnesses(new_) == AttachedWitnesses(new_)
    ensures o.identities == map c | c in new_ :: new_[c].identity
  {
    hide AttachedWitnesses, AttachedCursors;
    WitnessKeys(old_);
    assert o.witnesses - new_.Keys == map[];
  }

  lemma WitnessKeys(files: Files)
    ensures AttachedWitnesses(files).Keys <= files.Keys
  {
    hide WitnessAt, NextCursor;
    AttachedCursorsFit(files);
  }

  /** Full attach followed by any number of successful polls of growing files is one full attach to the final
      files: the same cursors, file evidence, parser flags, last order and reducer. The attach must have left no
      gap; the polls check everything after it. */
  lemma {:induction false} TailingRefinesReplay(
    session: Session, slots: Option<U16>, o: Observed, files: Files, history: seq<Files>)
    requires UpToDate(session, slots, o, files) && GrowingHistory(files, history)
    requires PollRun(session, o, history).Ok?
    ensures AttachFull(session, slots, Final(files, history)) == Ok(PollRun(session, o, history).value)
    ensures Gapless(AttachedLines(Final(files, history)), Final(files, history).Keys)
    ensures Sorted(AttachedLines(files)) ==> Sorted(AttachedLines(Final(files, history)))
    decreases history
  {
    hide AttachFull, Poll, Sorted, Gapless, AttachedLines, Grows;
    if history != [] {
      PollStaysUpToDate(session, slots, o, files, history[0]);
      TailingRefinesReplay(session, slots, Poll(session, o, history[0]).value, history[0], history[1..]);
    }
  }

  /** The same from the files themselves: an attach without a gap is enough, and so is one that read every
      component in key order. */
  lemma AttachThenPolls(session: Session, slots: Option<U16>, files: Files, history: seq<Files>)
    requires CursorsFit(files, map[]) && files != map[] && GrowingHistory(files, history)
    requires Gapless(AttachedLines(files), files.Keys) || AllSorted(PendingStreams(files, map[]))
    ensures var o := AttachFull(session, slots, files).value;
      PollRun(session, o, history).Ok? ==>
        AttachFull(session, slots, Final(files, history)) == Ok(PollRun(session, o, history).value)
  {
    hide PollRun, Sorted, AllSorted, Gapless, AttachedLines, GrowingHistory;
    AttachSortedIff(files);
    if Sorted(AttachedLines(files)) {
      SortedIsGapless(AttachedLines(files), files.Keys);
    }
    var o := AttachFull(session, slots, files).value;
    if PollRun(session, o, history).Ok? {
      TailingRefinesReplay(session, slots, o, files, history);
    }
  }

  /** Attach-time key order is the order of each component's own lines. */
  lemma AttachSortedIff(files: Files)
    ensures CursorsFit(files, map[])
    ensures Sorted(AttachedLines(files)) <==> AllSorted(PendingStreams(files, map[]))
  {
    AttachedCursorsFit(files);
    PendingTagged(files, map[]);
    MergeSortedIff(PendingStreams(files, map[]));
  }
}
