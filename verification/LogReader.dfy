/** The incremental reader of one component log: a durable cursor over a file that only grows. */
module LogReader {
  import opened Prelude
  import opened Text
  import opened LogRecords
  import opened LineGrammar
  import ReverseSearch

  datatype LogCursor = LogCursor(byteOffset: nat, lineNumber: nat)

  const START_CURSOR := LogCursor(0, 0)

  const READ_CHUNK_BYTES: nat := 64 * 1024

  // What a reader will still deliver.

  function LineOf(component: Component, record: Record, lineNumber: nat): RawLogLine {
    Materialize(component, lineNumber, record.offset, TrimLineEnd(record.text))
  }

  function NumberedLines(component: Component, records: seq<Record>, before: nat): (r: seq<RawLogLine>)
    ensures |r| == |records|
    decreases records
  {
    if records == [] then []
    else [LineOf(component, records[0], before + 1)] + NumberedLines(component, records[1..], before + 1)
  }

  /** The lines among the records that may carry an event. */
  function Candidates(component: Component, records: seq<Record>, before: nat): seq<RawLogLine>
    decreases records
  {
    if records == [] then []
    else
      var line := LineOf(component, records[0], before + 1);
      (if MightEmitEvent(component, line.raw) then [line] else [])
      + Candidates(component, records[1..], before + 1)
  }

  function PendingLines(component: Component, bytes: string, cursor: LogCursor): seq<RawLogLine>
    requires cursor.byteOffset <= |bytes|
  {
    NumberedLines(component, Records(bytes, cursor.byteOffset), cursor.lineNumber)
  }

  function PendingEvents(component: Component, bytes: string, cursor: LogCursor): seq<RawLogLine>
    requires cursor.byteOffset <= |bytes|
  {
    Candidates(component, Records(bytes, cursor.byteOffset), cursor.lineNumber)
  }

  /** Where the cursor stands once nothing complete is left. */
  function EndCursor(bytes: string, cursor: LogCursor): (r: LogCursor)
    requires cursor.byteOffset <= |bytes|
    ensures cursor.byteOffset <= r.byteOffset <= |bytes|
  {
    LogCursor(DurableEnd(bytes, cursor.byteOffset), cursor.lineNumber + |Records(bytes, cursor.byteOffset)|)
  }

  lemma LinesCons(component: Component, first: Record, rest: seq<Record>, before: nat)
    ensures NumberedLines(component, [first] + rest, before)
         == [LineOf(component, first, before + 1)] + NumberedLines(component, rest, before + 1)
    ensures Candidates(component, [first] + rest, before)
         == if MightEmitEvent(component, TrimLineEnd(first.text))
            then [LineOf(component, first, before + 1)] + Candidates(component, rest, before + 1)
            else Candidates(component, rest, before + 1)
  {
    hide MightEmitEvent, SplitTimestamp, TrimLineEnd;
    assert ([first] + rest)[1..] == rest;
  }

  /** The record from the cursor to this newline, as a numbered line. */
  function LineAt(component: Component, bytes: string, cursor: LogCursor, newline: nat): RawLogLine
    requires cursor.byteOffset <= newline < |bytes|
  {
    Materialize(component, cursor.lineNumber + 1, cursor.byteOffset, TrimLineEnd(bytes[cursor.byteOffset..newline + 1]))
  }

  /** Nothing is pending without a newline. */
  lemma NoNextRecord(component: Component, bytes: string, cursor: LogCursor)
    requires cursor.byteOffset <= |bytes| && NewlineFrom(bytes, cursor.byteOffset).None?
    ensures PendingLines(component, bytes, cursor) == [] && PendingEvents(component, bytes, cursor) == []
    ensures EndCursor(bytes, cursor) == cursor
  {
    hide MightEmitEvent, Materialize, TrimLineEnd;
  }

  /** One record's worth of what is pending. */
  lemma NextRecord(component: Component, bytes: string, cursor: LogCursor, newline: nat)
    requires cursor.byteOffset <= |bytes| && NewlineFrom(bytes, cursor.byteOffset) == Some(newline)
    ensures var next := LogCursor(newline + 1, cursor.lineNumber + 1);
      var untrimmed := TrimLineEnd(bytes[cursor.byteOffset..newline + 1]);
      var line := Materialize(component, next.lineNumber, cursor.byteOffset, untrimmed);
      && PendingLines(component, bytes, cursor) == [line] + PendingLines(component, bytes, next)
      && PendingEvents(component, bytes, cursor)
           == (if MightEmitEvent(component, untrimmed) then [line] + PendingEvents(component, bytes, next)
               else PendingEvents(component, bytes, next))
      && EndCursor(bytes, cursor) == EndCursor(bytes, next)
  {
    hide Records, MightEmitEvent, Materialize, TrimLineEnd, Candidates, NumberedLines, NewlineFrom, EndCursor, LineOf,
      PendingLines, PendingEvents;
    var first := Record(cursor.byteOffset, bytes[cursor.byteOffset..newline + 1]);
    NextEnd(bytes, cursor, newline, first);
    LinesCons(component, first, Records(bytes, newline + 1), cursor.lineNumber);
    PendingIs(component, bytes, cursor);
    PendingIs(component, bytes, LogCursor(newline + 1, cursor.lineNumber + 1));
    LineIs(component, first, cursor.lineNumber + 1);
  }

  lemma PendingIs(component: Component, bytes: string, cursor: LogCursor)
    requires cursor.byteOffset <= |bytes|
    ensures PendingLines(component, bytes, cursor)
         == NumberedLines(component, Records(bytes, cursor.byteOffset), cursor.lineNumber)
    ensures PendingEvents(component, bytes, cursor)
         == Candidates(component, Records(bytes, cursor.byteOffset), cursor.lineNumber)
  {
    hide Records, NumberedLines, Candidates;
  }

  lemma LineIs(component: Component, record: Record, lineNumber: nat)
    ensures LineOf(component, record, lineNumber)
         == Materialize(component, lineNumber, record.offset, TrimLineEnd(record.text))
  {
    hide Materialize, TrimLineEnd;
  }

  lemma NextEnd(bytes: string, cursor: LogCursor, newline: nat, first: Record)
    requires cursor.byteOffset <= |bytes| && NewlineFrom(bytes, cursor.byteOffset) == Some(newline)
    requires first == Record(cursor.byteOffset, bytes[cursor.byteOffset..newline + 1])
    ensures Records(bytes, cursor.byteOffset) == [first] + Records(bytes, newline + 1)
    ensures EndCursor(bytes, cursor) == EndCursor(bytes, LogCursor(newline + 1, cursor.lineNumber + 1))
  {
    hide Records, DurableEnd, NewlineFrom;
    RecordsUnfold(bytes, cursor.byteOffset);
    OneMore(first, Records(bytes, newline + 1));
  }

  lemma OneMore<T>(first: T, rest: seq<T>)
    ensures |[first] + rest| == 1 + |rest|
  {
  }

  lemma NoCandidates(component: Component, before: nat)
    ensures Candidates(component, [], before) == []
  {
  }

  lemma {:induction false} CandidatesConcat(component: Component, a: seq<Record>, b: seq<Record>, before: nat)
    ensures Candidates(component, a + b, before)
         == Candidates(component, a, before) + Candidates(component, b, before + |a|)
    decreases a
  {
    hide MightEmitEvent, LineOf, Candidates;
    if a == [] {
      assert a + b == b;
      NoCandidates(component, before);
    } else {
      var first, rest := a[0], a[1..];
      assert a == [first] + rest && a + b == [first] + (rest + b);
      CandidatesConcat(component, rest, b, before + 1);
      LinesCons(component, first, rest, before);
      LinesCons(component, first, rest + b, before);
    }
  }

  /** Reading the grown file from the start is reading the old file, then the rest from the old end cursor. */
  lemma PendingGrows(component: Component, bytes: string, more: string, cursor: LogCursor)
    requires cursor.byteOffset <= |bytes|
    ensures PendingEvents(component, bytes + more, cursor)
         == PendingEvents(component, bytes, cursor)
            + PendingEvents(component, bytes + more, EndCursor(bytes, cursor))
    ensures EndCursor(bytes + more, cursor) == EndCursor(bytes + more, EndCursor(bytes, cursor))
  {
    hide Records, DurableEnd, Candidates;
    RecordsGrow(bytes, more, cursor.byteOffset);
    CandidatesConcat(component, Records(bytes, cursor.byteOffset),
                     Records(bytes + more, DurableEnd(bytes, cursor.byteOffset)), cursor.lineNumber);
  }

  /** What the trimmed text leaves out are the line-end characters at the end, all of them. */
  lemma {:induction false} LineEndTrimmed(text: string)
    ensures var raw := TrimLineEnd(text);
      && raw <= text && (forall k | |raw| <= k < |text| :: text[k] == LF || text[k] == CR)
      && (raw != [] ==> raw[|raw| - 1] != LF && raw[|raw| - 1] != CR)
  {
    if text != [] && (text[|text| - 1] == LF || text[|text| - 1] == CR) {
      LineEndTrimmed(text[..|text| - 1]);
    }
  }

  lemma {:induction false} NumberedAt(component: Component, records: seq<Record>, before: nat, k: nat)
    requires k < |records|
    ensures NumberedLines(component, records, before)[k] == LineOf(component, records[k], before + k + 1)
    decreases k
  {
    hide LineOf;
    if k > 0 {
      NumberedAt(component, records[1..], before + 1, k - 1);
    }
  }

  /** The lines that a reader delivers are the complete records in order, numbered on from the cursor, each with the offset
      of its record and its text without the line end. */
  lemma PendingLineAt(component: Component, bytes: string, cursor: LogCursor, k: nat)
    requires cursor.byteOffset <= |bytes| && k < |Records(bytes, cursor.byteOffset)|
    ensures |PendingLines(component, bytes, cursor)| == |Records(bytes, cursor.byteOffset)|
    ensures var line, record := PendingLines(component, bytes, cursor)[k], Records(bytes, cursor.byteOffset)[k];
      && line.component == component && line.lineNumber == cursor.lineNumber + k + 1 && line.byteOffset == record.offset
      && line.raw <= record.text
      && (forall i | |line.raw| <= i < |record.text| :: record.text[i] == LF || record.text[i] == CR)
      && (line.raw != [] ==> line.raw[|line.raw| - 1] != LF && line.raw[|line.raw| - 1] != CR)
  {
    hide Records, SplitTimestamp, TrimLineEnd;
    NumberedAt(component, Records(bytes, cursor.byteOffset), cursor.lineNumber, k);
    LineEndTrimmed(Records(bytes, cursor.byteOffset)[k].text);
  }

  // The objects.

  /** A log file: its identity never changes and its bytes only grow. */
  class LogFile {
    const identity: nat
    var bytes: string

    constructor (identity: nat, bytes: string)
      ensures this.identity == identity && this.bytes == bytes
    {
      this.identity := identity;
      this.bytes := bytes;
    }
  }

  class ComponentLogReader {
    const component: Component
    const file: LogFile
    var cursor: LogCursor
    var raw: string

    predicate Valid()
      reads this, file
    {
      cursor.byteOffset <= |file.bytes|
    }

    constructor Open(component: Component, file: LogFile, cursor: LogCursor)
      requires cursor.byteOffset <= |file.bytes|
      ensures Valid() && this.component == component && this.file == file && this.cursor == cursor
    {
      this.component := component;
      this.file := file;
      this.cursor := cursor;
      this.raw := "";
    }

    /** Reads the next record, or leaves the cursor alone when only a partial one is left. */
    method ReadNextCompleteRecord() returns (at: Option<LogCursor>)
      requires Valid()
      modifies this
      ensures Valid()
      ensures match NewlineFrom(file.bytes, old(cursor).byteOffset)
        case None => at == None && cursor == old(cursor)
        case Some(newline) =>
          && cursor == LogCursor(newline + 1, old(cursor).lineNumber + 1)
          && at == Some(LogCursor(old(cursor).byteOffset, cursor.lineNumber))
          && raw == file.bytes[old(cursor).byteOffset..newline + 1]
    {
      raw := "";
      var newline := NewlineFrom(file.bytes, cursor.byteOffset);
      if newline.None? {
        return None;
      }
      raw := file.bytes[cursor.byteOffset..newline.value + 1];
      var byteOffset, lineNumber := cursor.byteOffset, cursor.lineNumber + 1;
      cursor := LogCursor(byteOffset + |raw|, lineNumber);
      return Some(LogCursor(byteOffset, lineNumber));
    }

    method NextCompleteLine() returns (line: Option<RawLogLine>)
      requires Valid()
      modifies this
      ensures Valid() && EndCursor(file.bytes, cursor) == EndCursor(file.bytes, old(cursor))
      ensures match line
        case None => PendingLines(component, file.bytes, old(cursor)) == [] && cursor == old(cursor)
        case Some(l) =>
          && PendingLines(component, file.bytes, old(cursor)) == [l] + PendingLines(component, file.bytes, cursor)
          && old(cursor).byteOffset < cursor.byteOffset
      ensures match NewlineFrom(file.bytes, old(cursor).byteOffset)
        case None => line.None?
        case Some(newline) =>
          && cursor == LogCursor(newline + 1, old(cursor).lineNumber + 1)
          && line == Some(LineAt(component, file.bytes, old(cursor), newline))
    {
      hide PendingLines, PendingEvents, EndCursor, MightEmitEvent, TrimLineEnd, Materialize;
      ghost var before := cursor;
      var at := ReadNextCompleteRecord();
      if at.None? {
        NoNextRecord(component, file.bytes, before);
        return None;
      }
      NextRecord(component, file.bytes, before, cursor.byteOffset - 1);
      return Some(Materialize(component, at.value.lineNumber, at.value.byteOffset, TrimLineEnd(raw)));
    }

    /** Reads on to the next line that may carry an event. */
    method NextEventCandidate() returns (line: Option<RawLogLine>)
      requires Valid()
      modifies this
      ensures Valid() && EndCursor(file.bytes, cursor) == EndCursor(file.bytes, old(cursor))
      ensures match line
        case None =>
          && PendingEvents(component, file.bytes, old(cursor)) == []
          && cursor == EndCursor(file.bytes, old(cursor))
        case Some(l) =>
          && PendingEvents(component, file.bytes, old(cursor)) == [l] + PendingEvents(component, file.bytes, cursor)
          && old(cursor).byteOffset < cursor.byteOffset
    {
      hide PendingLines, PendingEvents, EndCursor, MightEmitEvent, TrimLineEnd, Materialize;
      while true
        invariant Valid() && old(cursor).byteOffset <= cursor.byteOffset
        invariant EndCursor(file.bytes, cursor) == EndCursor(file.bytes, old(cursor))
        invariant PendingEvents(component, file.bytes, cursor) == PendingEvents(component, file.bytes, old(cursor))
        decreases |file.bytes| - cursor.byteOffset
      {
        ghost var before := cursor;
        var at := ReadNextCompleteRecord();
        if at.None? {
          NoNextRecord(component, file.bytes, before);
          return None;
        }
        NextRecord(component, file.bytes, before, cursor.byteOffset - 1);
        var untrimmed := TrimLineEnd(raw);
        if MightEmitEvent(component, untrimmed) {
          return Some(Materialize(component, at.value.lineNumber, at.value.byteOffset, untrimmed));
        }
      }
    }

    method SkipCompleteLines()
      requires Valid()
      modifies this
      ensures Valid() && cursor == EndCursor(file.bytes, old(cursor))
    {
      hide EndCursor, TrimLineEnd, Materialize, MightEmitEvent, PendingLines, PendingEvents;
      while true
        invariant Valid() && EndCursor(file.bytes, cursor) == EndCursor(file.bytes, old(cursor))
        decreases |file.bytes| - cursor.byteOffset
      {
        ghost var before := cursor;
        var at := ReadNextCompleteRecord();
        if at.None? {
          NoNextRecord(component, file.bytes, before);
          return;
        }
        NextRecord(component, file.bytes, before, cursor.byteOffset - 1);
      }
    }

    /** Jumps to the last newline by backward chunks; the line number is deliberately not counted. */
    method FastForwardInertComponent()
      requires Valid()
      modifies this
      ensures Valid() && cursor == LogCursor(LastLineEnd(file.bytes), 0)
    {
      var offset := ReverseSearch.TailCursor(file.bytes, READ_CHUNK_BYTES);
      cursor := LogCursor(offset, 0);
    }
  }

  /** Counting reads, the tail cursor and the inert fast-forward agree on where the durable end is. */
  lemma CursorsAgree(bytes: string, cursor: LogCursor)
    requires IsBoundary(bytes, cursor.byteOffset)
    ensures EndCursor(bytes, cursor).byteOffset == LastLineEnd(bytes)
    ensures IsBoundary(bytes, EndCursor(bytes, cursor).byteOffset)
  {
    DurableEndIsLastLineEnd(bytes, cursor.byteOffset);
  }
}
