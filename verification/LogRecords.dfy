/** Complete records of an append-only log file, and why reading one incrementally never splits them. */
module LogRecords {
  import opened Prelude
  import opened Text

  /** One physical record: where it starts and its bytes, the newline included. */
  datatype Record = Record(offset: nat, text: string)

  /** The first newline at or after `from`. */
  function NewlineFrom(s: string, from: nat): (r: Option<nat>)
    requires from <= |s|
    ensures r.Some? ==> from <= r.value < |s| && s[r.value] == LF && LF !in s[from..r.value]
    ensures r.None? ==> LF !in s[from..]
    decreases |s| - from
  {
    if from == |s| then None
    else if s[from] == LF then Some(from)
    else
      var r := NewlineFrom(s, from + 1);
      assert r.Some? ==> s[from..r.value] == [s[from]] + s[from + 1..r.value];
      assert s[from..] == [s[from]] + s[from + 1..];
      r
  }

  /** The position after the last newline, zero if there is none. */
  function LastLineEnd(s: string): (r: nat)
    ensures r <= |s| && LF !in s[r..] && (r > 0 ==> s[r - 1] == LF)
  {
    if s == [] then 0
    else if s[|s| - 1] == LF then |s|
    else
      var r := LastLineEnd(s[..|s| - 1]);
      assert s[r..] == s[..|s| - 1][r..] + [s[|s| - 1]];
      r
  }

  lemma {:induction false} LastLineEndUnique(s: string, p: nat)
    requires p <= |s| && LF !in s[p..] && (p > 0 ==> s[p - 1] == LF)
    ensures p == LastLineEnd(s)
  {
    if p < |s| {
      var init := s[..|s| - 1];
      assert s[p..] == init[p..] + [s[|s| - 1]];
      LastLineEndUnique(init, p);
    }
  }

  lemma {:induction false} NewlineFromUnique(s: string, from: nat, i: nat)
    requires from <= i < |s| && s[i] == LF && LF !in s[from..i]
    ensures NewlineFrom(s, from) == Some(i)
    decreases i - from
  {
    if from < i {
      assert s[from..i] == [s[from]] + s[from + 1..i];
      NewlineFromUnique(s, from + 1, i);
    }
  }

  /** The complete records that start at or after the record boundary `from`. */
  function Records(s: string, from: nat): seq<Record>
    requires from <= |s|
    decreases |s| - from
  {
    match NewlineFrom(s, from)
    case None => []
    case Some(i) => [Record(from, s[from..i + 1])] + Records(s, i + 1)
  }

  /** Where reading all of them stops. */
  function DurableEnd(s: string, from: nat): (r: nat)
    requires from <= |s|
    ensures from <= r <= |s|
    decreases |s| - from
  {
    match NewlineFrom(s, from)
    case None => from
    case Some(i) => DurableEnd(s, i + 1)
  }

  predicate IsBoundary(s: string, at: nat) {
    at <= |s| && (at == 0 || s[at - 1] == LF)
  }

  lemma {:induction false} DurableEndIsLastLineEnd(s: string, from: nat)
    requires IsBoundary(s, from)
    ensures DurableEnd(s, from) == LastLineEnd(s)
    decreases |s| - from
  {
    match NewlineFrom(s, from)
    case None => LastLineEndUnique(s, from);
    case Some(i) => DurableEndIsLastLineEnd(s, i + 1);
  }

  function Texts(records: seq<Record>): string {
    if records == [] then [] else records[0].text + Texts(records[1..])
  }

  predicate OneLine(text: string) {
    text != [] && text[|text| - 1] == LF && LF !in text[..|text| - 1]
  }

  /** Together the records are the file up to the durable end, and what follows has no newline. */
  lemma {:induction false} RecordsTile(s: string, from: nat)
    requires from <= |s|
    ensures Texts(Records(s, from)) == s[from..DurableEnd(s, from)]
    ensures LF !in s[DurableEnd(s, from)..]
    decreases |s| - from
  {
    match NewlineFrom(s, from)
    case None =>
    case Some(i) =>
      RecordsTile(s, i + 1);
      var end := DurableEnd(s, i + 1);
      assert Records(s, from)[1..] == Records(s, i + 1);
      assert s[from..i + 1] + s[i + 1..end] == s[from..end];
  }

  /** Each record ends in its only newline and holds the bytes at its own offset. */
  lemma {:induction false} RecordAt(s: string, from: nat, k: nat)
    requires from <= |s| && k < |Records(s, from)|
    ensures var r := Records(s, from)[k];
      && OneLine(r.text)
      && from <= r.offset && r.offset + |r.text| <= |s| && s[r.offset..r.offset + |r.text|] == r.text
      && (k == 0 ==> r.offset == from)
      && (k > 0 ==> r.offset == Records(s, from)[k - 1].offset + |Records(s, from)[k - 1].text|)
    decreases k
  {
    var i := NewlineFrom(s, from).value;
    if k == 0 {
      assert s[from..i + 1][..i - from] == s[from..i];
    } else {
      RecordAt(s, i + 1, k - 1);
      assert Records(s, from)[k] == Records(s, i + 1)[k - 1];
      if k > 1 {
        assert Records(s, from)[k - 1] == Records(s, i + 1)[k - 2];
      }
    }
  }

  lemma NewlineFromGrown(s: string, more: string, from: nat)
    requires from <= |s|
    ensures NewlineFrom(s, from).Some? ==> NewlineFrom(s + more, from) == NewlineFrom(s, from)
  {
    if NewlineFrom(s, from).Some? {
      var i := NewlineFrom(s, from).value;
      assert (s + more)[from..i] == s[from..i];
      NewlineFromUnique(s + more, from, i);
    }
  }

  lemma Regroup<T>(a: seq<T>, b: seq<T>, c: seq<T>)
    ensures (a + b) + c == a + (b + c)
  {
  }

  lemma RecordsUnfold(s: string, from: nat)
    requires from <= |s|
    ensures match NewlineFrom(s, from)
      case None => Records(s, from) == [] && DurableEnd(s, from) == from
      case Some(i) =>
        && Records(s, from) == [Record(from, s[from..i + 1])] + Records(s, i + 1)
        && DurableEnd(s, from) == DurableEnd(s, i + 1)
  {
  }

  /** Appending bytes keeps the complete records and continues after them. */
  lemma {:induction false} RecordsGrow(s: string, more: string, from: nat)
    requires from <= |s|
    ensures Records(s + more, from) == Records(s, from) + Records(s + more, DurableEnd(s, from))
    ensures DurableEnd(s + more, from) == DurableEnd(s + more, DurableEnd(s, from))
    decreases |s| - from
  {
    hide Records, DurableEnd;
    NewlineFromGrown(s, more, from);
    RecordsUnfold(s, from);
    match NewlineFrom(s, from)
    case None =>
    case Some(i) =>
      RecordsUnfold(s + more, from);
      assert (s + more)[from..i + 1] == s[from..i + 1];
      RecordsGrow(s, more, i + 1);
      Regroup([Record(from, s[from..i + 1])], Records(s, i + 1), Records(s + more, DurableEnd(s, from)));
  }

  // Reads placed anywhere in the growth of a file.

  datatype ReaderStep = Grow(more: string) | Read

  datatype ReaderRun = ReaderRun(file: string, cursor: nat, emitted: seq<Record>)

  function StepReader(r: ReaderRun, step: ReaderStep): (r': ReaderRun)
    requires r.cursor <= |r.file|
    ensures r'.cursor <= |r'.file|
  {
    match step
    case Grow(more) => r.(file := r.file + more)
    case Read =>
      match NewlineFrom(r.file, r.cursor)
      case None => r
      case Some(i) =>
        ReaderRun(r.file, i + 1, r.emitted + [Record(r.cursor, r.file[r.cursor..i + 1])])
  }

  function RunReader(r: ReaderRun, steps: seq<ReaderStep>): (r': ReaderRun)
    requires r.cursor <= |r.file|
    ensures r'.cursor <= |r'.file|
    decreases steps
  {
    if steps == [] then r else RunReader(StepReader(r, steps[0]), steps[1..])
  }

  /** What has been emitted so far, followed by what a fresh read would still give, is everything. */
  predicate OnTrack(r: ReaderRun, start: nat) {
    && start <= r.cursor <= |r.file|
    && Records(r.file, start) == r.emitted + Records(r.file, r.cursor)
    && DurableEnd(r.file, start) == DurableEnd(r.file, r.cursor)
  }

  lemma GrowKeepsTrack(r: ReaderRun, start: nat, more: string)
    requires OnTrack(r, start)
    ensures OnTrack(StepReader(r, Grow(more)), start)
  {
    hide Records, DurableEnd, NewlineFrom;
    RecordsGrow(r.file, more, start);
    RecordsGrow(r.file, more, r.cursor);
    Regroup(r.emitted, Records(r.file, r.cursor), Records(r.file + more, DurableEnd(r.file, start)));
  }

  lemma ReadKeepsTrack(r: ReaderRun, start: nat)
    requires OnTrack(r, start)
    ensures OnTrack(StepReader(r, Read), start)
  {
    match NewlineFrom(r.file, r.cursor)
    case None =>
    case Some(i) =>
      var next := [Record(r.cursor, r.file[r.cursor..i + 1])];
      var rest := Records(r.file, i + 1);
      assert Records(r.file, r.cursor) == next + rest;
      Regroup(r.emitted, next, rest);
  }

  lemma StepKeepsTrack(r: ReaderRun, start: nat, step: ReaderStep)
    requires OnTrack(r, start)
    ensures OnTrack(StepReader(r, step), start)
  {
    hide OnTrack;
    match step
    case Grow(more) => GrowKeepsTrack(r, start, more);
    case Read => ReadKeepsTrack(r, start);
  }

  lemma {:induction false} RunKeepsTrack(r: ReaderRun, start: nat, steps: seq<ReaderStep>)
    requires OnTrack(r, start)
    ensures OnTrack(RunReader(r, steps), start)
    decreases steps
  {
    if steps != [] {
      StepKeepsTrack(r, start, steps[0]);
      RunKeepsTrack(StepReader(r, steps[0]), start, steps[1..]);
    }
  }

  /** For every growth of a file and every placement of reads: the emitted records are a prefix of the complete
      records of the final file, with their offsets; once a read finds nothing, they are all of them and the
      cursor stands after the last newline. */
  lemma RecordsNeverSplit(file: string, steps: seq<ReaderStep>)
    ensures var end := RunReader(ReaderRun(file, 0, []), steps);
      && end.emitted <= Records(end.file, 0)
      && (NewlineFrom(end.file, end.cursor).None? ==>
            end.emitted == Records(end.file, 0) && end.cursor == LastLineEnd(end.file))
  {
    var start := ReaderRun(file, 0, []);
    RunKeepsTrack(start, 0, steps);
    DurableEndIsLastLineEnd(RunReader(start, steps).file, 0);
  }
}
