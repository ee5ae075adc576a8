/** Tailing is replay exactly for attaches that leave no gap: every gap is filled by some growth of the files. */
module TailingExact {
  import opened Prelude
  import opened Text
  import opened ArenaState
  import opened ReducerSpec
  import opened LogRecords
  import opened LineGrammar
  import opened Decimals
  import opened LogReader
  import opened KWayMerge
  import opened ObserverSpec
  import opened Tailing

  // Writing a timestamp.

  const KEY_LIMIT: nat := 10000000000000

  /** The stamp that is read back as this key. */
  function Clock(key: nat): (r: string)
    ensures |r| == 17
  {
    Digits(key / 100000000000, 2) + ":" + Digits(key / 1000000000 % 100, 2) + ":" + Digits(key / 10000000 % 100, 2)
    + "." + Digits(key % 10000000, 7) + " "
  }

  lemma ClockParts(key: nat, text: string)
    ensures var raw := Clock(key) + text;
      && raw[0..2] == Digits(key / 100000000000, 2) && raw[2] == ':' && raw[3..5] == Digits(key / 1000000000 % 100, 2)
      && raw[5] == ':' && raw[6..8] == Digits(key / 10000000 % 100, 2) && raw[8] == '.'
      && raw[9..16] == Digits(key % 10000000, 7) && raw[16] == ' ' && raw[17..] == text
  {
    hide Digits;
  }

  lemma ClockSpans(key: nat, text: string)
    requires text != [] && !IsSpace(text[0])
    ensures var raw := Clock(key) + text;
      && !IsUpperLetter(raw[0])
      && Span(raw, 0, IsDigit) == Some(2) && Literal(raw, 2, ":") == Some(3) && TwoDigits(raw, 3, ':') == Some(6)
      && TwoDigits(raw, 6, '.') == Some(9) && Span(raw, 9, IsDigit) == Some(16) && Span(raw, 16, IsSpace) == Some(17)
  {
    hide Digits, Clock, RunEnd;
    var raw := Clock(key) + text;
    ClockParts(key, text);
    AllDigits(raw, 0, 2, key / 100000000000);
    AllDigits(raw, 3, 2, key / 1000000000 % 100);
    AllDigits(raw, 6, 2, key / 10000000 % 100);
    AllDigits(raw, 9, 7, key % 10000000);
    RunIs(raw, 0, 2, IsDigit);
    RunIs(raw, 9, 16, IsDigit);
    assert raw[17] == raw[17..][0] == text[0];
    RunIs(raw, 16, 17, IsSpace);
    assert raw[2..3] == ":";
  }

  lemma AllDigits(raw: string, at: nat, width: nat, n: nat)
    requires at + width <= |raw| && raw[at..at + width] == Digits(n, width)
    ensures forall k | at <= k < at + width :: IsDigit(raw[k])
  {
    hide Digits;
    forall k | at <= k < at + width ensures IsDigit(raw[k]) {
      assert raw[k] == raw[at..at + width][k - at];
      assert raw[at..at + width][k - at] in Digits(n, width);
    }
  }

  /** A key below the limit is written and read back. */
  lemma ClockReads(key: nat, text: string)
    requires key < KEY_LIMIT && text != [] && !IsSpace(text[0])
    ensures SplitTimestamp(Clock(key) + text) == Stamp(Some(key), 17)
  {
    hide Digits, Clock, Span, Literal, TwoDigits, Number, PowerOfTen;
    ClockParts(key, text);
    ClockSpans(key, text);
    TenPowers();
    DigitsRead(key / 100000000000, 2);
    DigitsRead(key / 1000000000 % 100, 2);
    DigitsRead(key / 10000000 % 100, 2);
    DigitsRead(key % 10000000, 7);
    var raw := Clock(key) + text;
    assert (raw[9..16] + "0000000")[..7] == raw[9..16];
  }

  /** Every key that is read is below the limit. */
  lemma KeysBelowLimit(raw: string)
    ensures var key := SplitTimestamp(raw).key; key.Some? ==> key.value < KEY_LIMIT
  {
    hide Number, PowerOfTen;
    TenPowers();
    if ParseTimestamp(raw).Some? {
      var hour := if |raw| > 1 && IsUpperLetter(raw[0]) && IsSpace(raw[1]) then SkipSpaces(raw, 1) else 0;
      var hourEnd := Span(raw, hour, IsDigit).value;
      var minute := Literal(raw, hourEnd, ":").value;
      var second := TwoDigits(raw, minute, ':').value;
      var fraction := TwoDigits(raw, second, '.').value;
      var fractionEnd := Span(raw, fraction, IsDigit).value;
      NumberBelow(raw[hour..hourEnd]);
      NumberBelow(raw[minute..minute + 2]);
      NumberBelow(raw[second..second + 2]);
      NumberBelow((raw[fraction..fractionEnd] + "0000000")[..7]);
    }
  }

  // A record that a reader delivers with a given key.

  /** A text that the prefilter of the component keeps. */
  function Marker(c: Component): string {
    match c
    case LoadingScreen => "ARENA"
    case Power => "CREATE_GAME"
    case Zone => ZONE_FROM + "DECK"
    case Arena => ON_BEGIN
    case Asset => "-"
  }

  function Signal(c: Component, key: Option<nat>): string {
    (if key.Some? then Clock(key.value) else "") + Marker(c)
  }

  function SignalLine(c: Component, key: Option<nat>, number: nat, offset: nat): RawLogLine {
    RawLogLine(c, number, offset, key, Marker(c), Signal(c, key))
  }

  lemma MarkerShape(c: Component)
    requires c.CanEmitEvents()
    ensures var text := Marker(c);
      && |text| > 1 && !IsDigit(text[0]) && !IsSpace(text[0]) && !IsSpace(text[1]) && LF !in text && CR !in text
  {
  }

  lemma MarkerKept(c: Component, stamp: string)
    requires c.CanEmitEvents()
    ensures MightEmitEvent(c, stamp + Marker(c))
  {
    var raw, at := stamp + Marker(c), |stamp|;
    match c
    case LoadingScreen => assert StartsAt(raw, "ARENA", at);
    case Power => assert StartsAt(raw, "CREATE_GAME", at);
    case Zone =>
      assert StartsAt(raw, ZONE_FROM, at);
      assert StartsAt(raw, "DECK", at + |ZONE_FROM|);
    case Arena => assert StartsAt(raw, ON_BEGIN, at);
  }

  lemma NoClock(raw: string)
    requires |raw| > 1 && !IsDigit(raw[0]) && !IsSpace(raw[1])
    ensures SplitTimestamp(raw) == Stamp(None, 0)
  {
    hide Number, TwoDigits, Literal;
    assert RunEnd(raw, 0, IsDigit) == 0;
  }

  lemma SignalReads(c: Component, key: Option<nat>, number: nat, offset: nat)
    requires c.CanEmitEvents() && (key.Some? ==> key.value < KEY_LIMIT)
    ensures Materialize(c, number, offset, Signal(c, key)) == SignalLine(c, key, number, offset)
    ensures MightEmitEvent(c, Signal(c, key))
  {
    hide SplitTimestamp, Marker, MightEmitEvent, Clock;
    MarkerShape(c);
    match key
    case Some(k) =>
      ClockReads(k, Marker(c));
      MarkerKept(c, Clock(k));
      assert (Clock(k) + Marker(c))[17..] == Marker(c);
    case None =>
      NoClock(Marker(c));
      MarkerKept(c, "");
      assert "" + Marker(c) == Marker(c);
  }

  lemma ClockPlain(key: nat)
    ensures LF !in Clock(key) && CR !in Clock(key)
  {
    hide Digits;
  }

  lemma SignalPlain(c: Component, key: Option<nat>)
    requires c.CanEmitEvents()
    ensures var raw := Signal(c, key); raw != [] && LF !in raw && CR !in raw
  {
    hide Clock, Marker;
    MarkerShape(c);
    if key.Some? {
      ClockPlain(key.value);
    }
  }

  lemma Untrimmed(raw: string)
    requires raw != [] && LF !in raw && CR !in raw
    ensures TrimLineEnd(raw + [LF]) == raw
  {
    assert raw[|raw| - 1] in raw;
    assert (raw + [LF])[..|raw|] == raw;
    assert TrimLineEnd(raw + [LF]) == TrimLineEnd(raw);
  }

  // One record more in one file.

  predicate EndsWhole(bytes: string) { bytes == [] || bytes[|bytes| - 1] == LF }

  /** From the end of a whole file, one appended record is all there is to read. */
  lemma OneMorePending(c: Component, bytes: string, key: Option<nat>)
    requires c.CanEmitEvents() && EndsWhole(bytes) && (key.Some? ==> key.value < KEY_LIMIT)
    ensures EndCursor(bytes, START_CURSOR).byteOffset == |bytes|
    ensures var cursor := EndCursor(bytes, START_CURSOR);
      PendingEvents(c, bytes + Signal(c, key) + [LF], cursor)
      == [SignalLine(c, key, cursor.lineNumber + 1, |bytes|)]
  {
    hide EndCursor, PendingEvents, PendingLines, Materialize, TrimLineEnd, Signal, SignalLine, MightEmitEvent, NewlineFrom;
    WholeEnds(bytes);
    CursorsAgree(bytes, START_CURSOR);
    var cursor, raw := EndCursor(bytes, START_CURSOR), Signal(c, key);
    var all := bytes + raw + [LF];
    var at, newline := |bytes|, |bytes| + |raw|;
    SignalPlain(c, key);
    assert all[at..newline] == raw && all[newline] == LF && all[at..newline + 1] == raw + [LF];
    NewlineFromUnique(all, at, newline);
    NextRecord(c, all, cursor, newline);
    Untrimmed(raw);
    SignalReads(c, key, cursor.lineNumber + 1, at);
    NothingFrom(all);
    NoNextRecord(c, all, LogCursor(|all|, cursor.lineNumber + 1));
  }

  lemma WholeEnds(bytes: string)
    requires EndsWhole(bytes)
    ensures LastLineEnd(bytes) == |bytes|
  {
  }

  lemma NothingFrom(bytes: string)
    ensures NewlineFrom(bytes, |bytes|) == None
  {
  }

  /** Nothing is left to read where a reading has ended. */
  lemma NothingPending(c: Component, bytes: string)
    ensures EndCursor(bytes, START_CURSOR).byteOffset <= |bytes|
    ensures PendingEvents(c, bytes, EndCursor(bytes, START_CURSOR)) == []
  {
    hide PendingEvents, EndCursor;
    PendingGrows(c, bytes, "", START_CURSOR);
    assert bytes + "" == bytes;
  }

  /** The files with one record more. */
  function Signalled(files: Files, c: Component, key: Option<nat>): Files
    requires c in files
  {
    files[c := FileView(files[c].identity, files[c].bytes + Signal(c, key) + [LF])]
  }

  function NewLine(files: Files, c: Component, key: Option<nat>): RawLogLine
    requires c in files
  {
    SignalLine(c, key, EndCursor(files[c].bytes, START_CURSOR).lineNumber + 1, |files[c].bytes|)
  }

  lemma SignalledGrow(files: Files, c: Component, key: Option<nat>)
    requires c in files
    ensures Grows(files, Signalled(files, c, key))
  {
    hide Signal;
  }

  lemma SignalledStreams(files: Files, c: Component, key: Option<nat>)
    requires c in files && c.CanEmitEvents() && EndsWhole(files[c].bytes) && (key.Some? ==> key.value < KEY_LIMIT)
    ensures Grows(files, Signalled(files, c, key)) && CursorsFit(Signalled(files, c, key), AttachedCursors(files))
    ensures PendingStreams(Signalled(files, c, key), AttachedCursors(files)) == OneStream(c, [NewLine(files, c, key)])
  {
    hide PendingEvents, EndCursor, Signal, SignalLine;
    var new_ := Signalled(files, c, key);
    SignalledGrow(files, c, key);
    GrownFit(files, new_);
    ComponentRanks();
    forall i | 0 <= i < 5
      ensures PendingStreams(new_, AttachedCursors(files))[i] == OneStream(c, [NewLine(files, c, key)])[i]
    {
      var d := COMPONENTS[i];
      assert d.Rank() == i && (d != c ==> d.Rank() != c.Rank());
      if d == c {
        OneMorePending(c, files[c].bytes, key);
      } else if d in files && d.CanEmitEvents() {
        NothingPending(d, files[d].bytes);
      }
    }
  }

  // Where the new line ends up in a replay.

  /** A line that belongs further up does not come last. */
  lemma {:induction false} LateIsNotLast(streams: Streams, c: Component, line: RawLogLine)
    requires |streams| == 5 && Tagged(streams) && line.component == c
    requires Tagged(OneStream(c, [line])) && !Continues(Merge(streams), OneStream(c, [line]))
    ensures Tagged(Extend(streams, OneStream(c, [line]))) && Merge(streams) != []
    ensures LastOrder(Merge(Extend(streams, OneStream(c, [line])))) == LastOrder(Merge(streams))
    decreases Size(streams)
  {
    hide Merge, Size, Precedes, Continues, IsLeastHead, OneStream;
    var later := OneStream(c, [line]);
    OneStreamShape(c, line);
    ExtendTagged(streams, later);
    var least := MergeCases(streams);
    match least
    case None =>
      ContinuesNothing(later);
    case Some(d) =>
      LeastHeadNonEmpty(streams, d);
      MergeStep(streams, d);
      var first, rest := streams[d][0], Merge(Pop(streams, d));
      ContinuesCons(streams, first, rest, later);
      ExtendedLeast(streams, later, d);
      if IsLeastHead(Extend(streams, later), d) {
        ExtendPop(streams, later, d);
        MergeStep(Extend(streams, later), d);
        LateIsNotLast(Pop(streams, d), c, line);
      } else {
        LateFront(streams, c, line, d);
      }
  }

  lemma OneStreamShape(c: Component, line: RawLogLine)
    ensures var later := OneStream(c, [line]);
      |later| == 5 && forall d | 0 <= d < 5 :: later[d] == if d == c.Rank() then [line] else []
  {
  }

  /** A line of a component that has run dry, next to what is left of the others. */
  lemma WideShape(streams: Streams, c: Component, line: RawLogLine)
    requires |streams| == 5 && c.Rank() < 5 && streams[c.Rank()] == []
    ensures var wide := Extend(streams, OneStream(c, [line]));
      && wide[c.Rank()] == [line] && Pop(wide, c.Rank()) == streams
      && forall e | 0 <= e < 5 && e != c.Rank() :: wide[e] == streams[e]
  {
    forall e | 0 <= e < 5 && e != c.Rank() ensures streams[e] + [] == streams[e] {
    }
    assert [] + [line] == [line] && [line][1..] == [];
  }

  lemma RunDry(streams: Streams, c: Component, line: RawLogLine, d: nat)
    requires |streams| == 5 && Tagged(streams) && line.component == c && IsLeastHead(streams, d)
    requires Tagged(OneStream(c, [line]))
    requires !IsLeastHead(Extend(streams, OneStream(c, [line])), d)
    ensures c.Rank() < 5 && streams[c.Rank()] == [] && d != c.Rank()
  {
    hide Precedes, IsLeastHead, Extend, OneStream;
    ComponentRanks();
    OneStreamShape(c, line);
    LeastHeadNonEmpty(streams, d);
    ExtendedLeast(streams, OneStream(c, [line]), d);
  }

  /** The new line comes first when it precedes every old head. */
  lemma LateFront(streams: Streams, c: Component, line: RawLogLine, d: nat)
    requires |streams| == 5 && Tagged(streams) && line.component == c && IsLeastHead(streams, d)
    requires Tagged(OneStream(c, [line])) && Tagged(Extend(streams, OneStream(c, [line])))
    requires !IsLeastHead(Extend(streams, OneStream(c, [line])), d)
    ensures Merge(Extend(streams, OneStream(c, [line]))) == [line] + Merge(streams) && Merge(streams) != []
  {
    hide Merge, Precedes, OneStream, Extend, IsLeastHead, Pop;
    OneStreamShape(c, line);
    var wide := Extend(streams, OneStream(c, [line]));
    RunDry(streams, c, line, d);
    WideShape(streams, c, line);
    MergeStep(streams, d);
    LateIsLeast(streams, wide, c, line, d);
    MergeStep(wide, c.Rank());
  }

  lemma LateIsLeast(streams: Streams, wide: Streams, c: Component, line: RawLogLine, d: nat)
    requires |streams| == |wide| == 5 && Tagged(streams) && line.component == c && IsLeastHead(streams, d)
    requires c.Rank() < 5 && d != c.Rank() && streams[c.Rank()] == [] && wide[c.Rank()] == [line]
    requires forall e | 0 <= e < 5 && e != c.Rank() :: wide[e] == streams[e]
    requires !IsLeastHead(wide, d)
    ensures IsLeastHead(wide, c.Rank())
  {
    hide Precedes, Tagged;
    HeadComponent(streams, d);
    PrecedesTotal(line, streams[d][0]);
    assert Precedes(line, streams[d][0]);
    forall e | 0 <= e < 5 && e != c.Rank() && e != d && wide[e] != [] ensures Precedes(line, wide[e][0]) {
      PrecedesTransitive(line, streams[d][0], streams[e][0]);
    }
  }

  // The exact condition.

  /** The order of the new line, against lines of other components, is that of `NextOrder`. */
  lemma SameAgainstOthers(a: LineOrder, b: LineOrder, other: LineOrder)
    requires a.component == b.component != other.component && a.timestamp == b.timestamp
    ensures Before(a, other) == Before(b, other) && Before(other, a) == Before(other, b)
  {
  }

  lemma {:induction false} CandidateKeys(c: Component, records: seq<Record>, before: nat, line: RawLogLine)
    requires line in Candidates(c, records, before)
    ensures line.timestampKey.Some? ==> line.timestampKey.value < KEY_LIMIT
    decreases records
  {
    hide MightEmitEvent, SplitTimestamp;
    var first := LineOf(c, records[0], before + 1);
    if line == first {
      KeysBelowLimit(first.raw);
    } else {
      CandidateKeys(c, records[1..], before + 1, line);
    }
  }

  lemma AttachedKeys(files: Files, line: RawLogLine)
    requires line in AttachedLines(files)
    ensures line.timestampKey.Some? ==> line.timestampKey.value < KEY_LIMIT
  {
    hide Merge, Candidates, Records;
    ComponentRanks();
    AttachedCursorsFit(files);
    PendingTagged(files, map[]);
    MergeMembers(PendingStreams(files, map[]), line);
    var c := COMPONENTS[line.component.Rank()];
    CandidateKeys(c, Records(files[c].bytes, 0), 0, line);
  }

  /** What the gap gives: a component, the line it belongs below, and a key that the check lets through. */
  lemma FindGap(files: Files) returns (c: Component, i: nat, key: Option<nat>)
    requires !Gapless(AttachedLines(files), files.Keys)
    ensures var merged := AttachedLines(files);
      && c in files && c.CanEmitEvents() && i < |merged| && NoneFrom(merged, i, c.Rank())
      && key == NextOrder(OrderOf(merged[|merged| - 1]), c).timestamp
      && Before(NextOrder(OrderOf(merged[|merged| - 1]), c), OrderOf(merged[i]))
      && (key.Some? ==> key.value < KEY_LIMIT)
  {
    hide AttachedLines, NextOrder, Before, NoneFrom, Gapless;
    var merged := AttachedLines(files);
    c, i := GapWitness(merged, files.Keys);
    key := NextOrder(OrderOf(merged[|merged| - 1]), c).timestamp;
    assert merged[i] in merged;
    AttachedKeys(files, merged[i]);
    if key.Some? {
      KeyOfBefore(NextOrder(OrderOf(merged[|merged| - 1]), c), OrderOf(merged[i]));
    }
  }

  lemma GapWitness(merged: seq<RawLogLine>, present: set<Component>) returns (c: Component, i: nat)
    requires !Gapless(merged, present)
    ensures c in present && c.CanEmitEvents() && i < |merged| && NoneFrom(merged, i, c.Rank())
    ensures Before(NextOrder(OrderOf(merged[|merged| - 1]), c), OrderOf(merged[i]))
  {
    hide NextOrder, Before, NoneFrom;
    c, i :| c in present && c.CanEmitEvents() && 0 <= i < |merged| && NoneFrom(merged, i, c.Rank())
      && Before(NextOrder(OrderOf(merged[|merged| - 1]), c), OrderOf(merged[i]));
  }

  lemma KeyOfBefore(a: LineOrder, b: LineOrder)
    requires Before(a, b) && a.timestamp.Some?
    ensures b.timestamp.Some? && a.timestamp.value <= b.timestamp.value
  {
  }

  /** The new line passes the check and belongs further up. */
  lemma NewLineBreaks(merged: seq<RawLogLine>, c: Component, i: nat, line: RawLogLine)
    requires i < |merged| && NoneFrom(merged, i, c.Rank()) && line.component == c
    requires line.timestampKey == NextOrder(OrderOf(merged[|merged| - 1]), c).timestamp
    requires Before(NextOrder(OrderOf(merged[|merged| - 1]), c), OrderOf(merged[i]))
    ensures Tagged(OneStream(c, [line])) && Merge(OneStream(c, [line])) == [line]
    ensures InOrder(LastOrder(merged), [line]) && !Continues(merged, OneStream(c, [line]))
    ensures line.component != merged[|merged| - 1].component
  {
    hide Before, Merge, NextOrder;
    var last := OrderOf(merged[|merged| - 1]);
    assert merged[|merged| - 1].component.Rank() != c.Rank() && merged[i].component.Rank() != c.Rank();
    ComponentRanks();
    NextOrderShape(last, c);
    SameAgainstOthers(OrderOf(line), NextOrder(last, c), last);
    SameAgainstOthers(OrderOf(line), NextOrder(last, c), OrderOf(merged[i]));
    OneStreamMerge(c, [line]);
    assert InOrder(Some(OrderOf(line)), [line][1..]);
    BeforeAsymmetric(OrderOf(line), OrderOf(merged[i]));
    assert OneStream(c, [line])[c.Rank()][0] == line;
  }

  /** Every event file ends with a complete record. */
  predicate Whole(files: Files) {
    forall c | c in files && c.CanEmitEvents() :: EndsWhole(files[c].bytes)
  }

  /** After an attach with a gap some growth of the files is polled without complaint and ends in another observer than
      an attach to the grown files. */
  lemma GapIsFilled(session: Session, slots: Option<U16>, files: Files) returns (new_: Files)
    requires files != map[] && Whole(files) && !Gapless(AttachedLines(files), files.Keys)
    ensures Grows(files, new_)
    ensures var polled := Poll(session, AttachFull(session, slots, files).value, new_);
      polled.Ok? && AttachFull(session, slots, new_) != Ok(polled.value)
  {
    hide AttachedLines, Merge, PendingStreams, NextOrder, Before, Continues, FirstFault, ConsumeAll, FreshReplay, NewLine,
      Signalled, Gapless, Witnesses, AdvancedCursors, OneStream, Extend;
    var c, i, key := FindGap(files);
    new_ := Signalled(files, c, key);
    var merged, line := AttachedLines(files), NewLine(files, c, key);
    var o := AttachFull(session, slots, files).value;
    NewLineShape(files, c, key);
    NewLineBreaks(merged, c, i, line);
    SignalledStreams(files, c, key);
    AttachedLastOrder(session, slots, o, files);
    GrowthHasNoFault(session, slots, o, files, new_, 0);
    ReplayedLast(files, c, key);
    LastOrderConsumed(session, o.replay, [line]);
    KeysGrow(files, new_);
    AttachedLastOrder(session, slots, AttachFull(session, slots, new_).value, new_);
  }

  lemma NewLineShape(files: Files, c: Component, key: Option<nat>)
    requires c in files
    ensures NewLine(files, c, key).component == c && NewLine(files, c, key).timestampKey == key
  {
    hide EndCursor;
  }

  lemma KeysGrow(old_: Files, new_: Files)
    requires Grows(old_, new_) && old_ != map[]
    ensures new_ != map[]
  {
    assert old_.Keys != {};
  }

  /** A replay of the grown files ends in the line that the attach ended in. */
  lemma ReplayedLast(files: Files, c: Component, key: Option<nat>)
    requires c in files && c.CanEmitEvents() && EndsWhole(files[c].bytes) && (key.Some? ==> key.value < KEY_LIMIT)
    requires !Continues(AttachedLines(files), OneStream(c, [NewLine(files, c, key)]))
    requires Tagged(OneStream(c, [NewLine(files, c, key)]))
    ensures LastOrder(AttachedLines(Signalled(files, c, key))) == LastOrder(AttachedLines(files))
  {
    hide Merge, PendingStreams, Continues, NewLine, OneStream, Extend, Signalled;
    SignalledStreams(files, c, key);
    StreamsExtend(files, Signalled(files, c, key));
    AttachedCursorsFit(files);
    AttachedCursorsFit(Signalled(files, c, key));
    PendingTagged(files, map[]);
    NewLineShape(files, c, key);
    LateIsNotLast(PendingStreams(files, map[]), c, NewLine(files, c, key));
  }

  /** For files that end with complete records: polls that succeed always end where one full attach to the final files
      ends if and only if the attach left no gap. */
  lemma TailingIsReplayIff(session: Session, slots: Option<U16>, files: Files)
    requires files != map[] && Whole(files)
    ensures var o := AttachFull(session, slots, files).value;
      Gapless(AttachedLines(files), files.Keys) <==>
        forall history | GrowingHistory(files, history) && PollRun(session, o, history).Ok? ::
          AttachFull(session, slots, Final(files, history)) == Ok(PollRun(session, o, history).value)
  {
    hide Gapless, AttachFull, Poll, AttachedLines, Grows, PollRun, GrowingHistory, Final;
    AttachIsOk(session, slots, files);
    var o := AttachFull(session, slots, files).value;
    if Gapless(AttachedLines(files), files.Keys) {
      forall history | GrowingHistory(files, history) && PollRun(session, o, history).Ok?
        ensures AttachFull(session, slots, Final(files, history)) == Ok(PollRun(session, o, history).value)
      {
        TailingRefinesReplay(session, slots, o, files, history);
      }
    } else {
      var new_ := GapIsFilled(session, slots, files);
      OnePoll(session, o, files, new_);
    }
  }

  lemma AttachIsOk(session: Session, slots: Option<U16>, files: Files)
    requires files != map[]
    ensures AttachFull(session, slots, files).Ok?
  {
    hide Drained, Witnesses, AdvancedCursors;
  }

  lemma OnePoll(session: Session, o: Observed, files: Files, new_: Files)
    requires Grows(files, new_)
    ensures GrowingHistory(files, [new_]) && Final(files, [new_]) == new_
    ensures PollRun(session, o, [new_]) == Poll(session, o, new_)
  {
    hide Grows, Poll;
    assert [new_][1..] == [];
  }
}
