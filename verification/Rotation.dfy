/** In-place rotation of an overlarge component log. */
module Rotation {
  import opened Prelude
  import opened Text
  import opened LogRecords
  import opened LineGrammar
  import opened LogReader
  import opened ObserverSpec

  const ROTATE_AT_BYTES: nat := 9 * 1024 * 1024 + 512 * 1024
  const ROTATION_KEEP_BYTES: nat := 2 * 1024 * 1024

  /** The newest bytes within the keep size. */
  function Window(bytes: string): string {
    bytes[Max(|bytes| - ROTATION_KEEP_BYTES, 0)..]
  }

  /** Where the retained bytes start in the old file. */
  function RetainedFrom(bytes: string): (r: nat)
    ensures r <= |bytes|
  {
    var start := Max(|bytes| - ROTATION_KEEP_BYTES, 0);
    match NewlineFrom(bytes, start)
    case None => start
    case Some(i) => i + 1
  }

  function Rotated(bytes: string): string {
    if |bytes| <= ROTATE_AT_BYTES then bytes else bytes[RetainedFrom(bytes)..]
  }

  /** Rewrites the file in place; its identity does not change. */
  method RotateComponentLog(file: LogFile) returns (r: Option<(nat, nat)>)
    modifies file
    ensures file.bytes == Rotated(old(file.bytes))
    ensures r == if |old(file.bytes)| <= ROTATE_AT_BYTES then None else Some((|old(file.bytes)|, |file.bytes|))
  {
    hide NewlineFrom, Rotated;
    RotatedTail(file.bytes);
    var length := |file.bytes|;
    if length <= ROTATE_AT_BYTES {
      return None;
    }
    var keep := Min(length, ROTATION_KEEP_BYTES);
    var start := length - keep;
    var tail := file.bytes[start..];
    var firstNewline := NewlineFrom(tail, 0);
    if firstNewline.Some? {
      tail := tail[firstNewline.value + 1..];
    }
    file.bytes := tail;
    return Some((length, |tail|));
  }

  /** What is left of the newest bytes once their first, partial record is dropped. */
  lemma RotatedTail(bytes: string)
    ensures |bytes| <= ROTATE_AT_BYTES ==> Rotated(bytes) == bytes
    ensures |bytes| > ROTATE_AT_BYTES ==>
      var tail := bytes[|bytes| - ROTATION_KEEP_BYTES..];
      var newline := NewlineFrom(tail, 0);
      Rotated(bytes) == if newline.Some? then tail[newline.value + 1..] else tail
  {
    hide NewlineFrom;
    if |bytes| > ROTATE_AT_BYTES {
      var start := |bytes| - ROTATION_KEEP_BYTES;
      var newline := NewlineFrom(bytes[start..], 0);
      NewlineShifted(bytes, start, 0);
      if newline.Some? {
        SuffixOfSuffix(bytes, start, newline.value + 1);
      }
    }
  }

  lemma SuffixOfSuffix(bytes: string, start: nat, more: nat)
    requires start + more <= |bytes|
    ensures bytes[start..][more..] == bytes[start + more..]
  {
  }

  lemma NewlineInside(bytes: string, start: nat)
    requires start <= |bytes|
    ensures NewlineFrom(bytes, start).Some? <==> LF in bytes[start..]
  {
    if NewlineFrom(bytes, start).Some? {
      assert bytes[start..][NewlineFrom(bytes, start).value - start] == LF;
    }
  }

  /** A file of up to nine and a half megabytes stays. Of a larger one two megabytes stay, less the rest of the record that
      this window begins in; rotating again does nothing. */
  lemma RotatedIsSuffix(bytes: string)
    ensures var after := Rotated(bytes);
      && |after| <= |bytes| && bytes[|bytes| - |after|..] == after
      && (|bytes| <= 9_961_472 ==> after == bytes)
      && (|bytes| > 9_961_472 ==>
            && |after| <= 2_097_152
            && LF !in bytes[|bytes| - 2_097_152..Max(|bytes| - |after| - 1, |bytes| - 2_097_152)]
            && (|after| < 2_097_152 ==> bytes[|bytes| - |after| - 1] == LF))
      && Rotated(after) == after
  {
  }

  /** The retained bytes start at a record boundary if and only if the window has a newline or started at one. */
  lemma RetainedBoundaryIff(bytes: string)
    requires |bytes| > ROTATE_AT_BYTES
    ensures IsBoundary(bytes, |bytes| - |Rotated(bytes)|)
       <==> LF in Window(bytes) || bytes[|bytes| - ROTATION_KEEP_BYTES - 1] == LF
  {
    hide NewlineFrom;
    var start := |bytes| - ROTATION_KEEP_BYTES;
    assert Window(bytes) == bytes[start..];
    NewlineInside(bytes, start);
  }

  /** A record of this many bytes, without its newline yet. */
  function Overlong(length: nat): (r: string)
    ensures |r| == length && LF !in r
  {
    seq(length, _ => 'x')
  }

  /** A record longer than the kept window is torn: once its newline is written, the rotated file delivers a record
      that the old file never had. */
  lemma OverlongRecordIsTorn(length: nat)
    requires length > ROTATE_AT_BYTES
    ensures var bytes := Overlong(length);
      && !IsBoundary(bytes, |bytes| - |Rotated(bytes)|)
      && Records(bytes + [LF], 0) == [Record(0, bytes + [LF])]
      && Records(Rotated(bytes) + [LF], 0) == [Record(0, Rotated(bytes) + [LF])] && |Rotated(bytes)| < |bytes|
  {
    hide Records, Overlong, NewlineFrom;
    var bytes := Overlong(length);
    RetainedBoundaryIff(bytes);
    NewlineInside(bytes, |bytes| - ROTATION_KEEP_BYTES);
    assert Rotated(bytes) == Window(bytes);
    OneRecord(bytes);
    OneRecord(Rotated(bytes));
  }

  lemma OneRecord(text: string)
    requires LF !in text
    ensures Records(text + [LF], 0) == [Record(0, text + [LF])]
  {
    hide Records, NewlineFrom;
    var all := text + [LF];
    assert all[0..|text|] == text && all[0..|text| + 1] == all;
    NewlineFromUnique(all, 0, |text|);
    RecordsUnfold(all, 0);
    RecordsUnfold(all, |all|);
    NewlineInside(all, |all|);
    assert all[|all|..] == [];
  }

  function Shifted(records: seq<Record>, shift: nat): seq<Record> {
    seq(|records|, i requires 0 <= i < |records| => Record(records[i].offset + shift, records[i].text))
  }

  lemma NewlineShifted(bytes: string, shift: nat, from: nat)
    requires shift + from <= |bytes|
    ensures NewlineFrom(bytes[shift..], from).Some? <==> NewlineFrom(bytes, shift + from).Some?
    ensures NewlineFrom(bytes[shift..], from).Some? ==>
      NewlineFrom(bytes, shift + from).value == shift + NewlineFrom(bytes[shift..], from).value
  {
    var tail := bytes[shift..];
    assert tail[from..] == bytes[shift + from..];
    NewlineInside(tail, from);
    NewlineInside(bytes, shift + from);
    var i := NewlineFrom(tail, from);
    if i.Some? {
      assert tail[from..i.value] == bytes[shift + from..shift + i.value];
      NewlineFromUnique(bytes, shift + from, shift + i.value);
    }
  }

  /** The records of a suffix are the records from its start, at offsets counted from there. */
  lemma {:induction false} RecordsShifted(bytes: string, shift: nat, from: nat)
    requires shift + from <= |bytes|
    ensures Shifted(Records(bytes[shift..], from), shift) == Records(bytes, shift + from)
    decreases |bytes| - from
  {
    hide Records, NewlineFrom;
    var tail := bytes[shift..];
    NewlineShifted(bytes, shift, from);
    RecordsUnfold(tail, from);
    RecordsUnfold(bytes, shift + from);
    match NewlineFrom(tail, from)
    case None =>
    case Some(i) =>
      RecordsShifted(bytes, shift, i + 1);
      assert tail[from..i + 1] == bytes[shift + from..shift + i + 1];
      ShiftedCons(Record(from, tail[from..i + 1]), Records(tail, i + 1), shift);
  }

  lemma ShiftedCons(first: Record, rest: seq<Record>, shift: nat)
    ensures Shifted([first] + rest, shift) == [Record(first.offset + shift, first.text)] + Shifted(rest, shift)
  {
  }

  lemma {:induction false} RecordsThrough(bytes: string, from: nat, start: nat) returns (dropped: seq<Record>)
    requires from <= start <= |bytes| && IsBoundary(bytes, start)
    ensures Records(bytes, from) == dropped + Records(bytes, start)
    decreases start - from
  {
    hide Records;
    if from == start {
      dropped := [];
    } else {
      RecordsUnfold(bytes, from);
      var i := NewlineFrom(bytes, from).value;
      assert i < start;
      var rest := RecordsThrough(bytes, i + 1, start);
      dropped := [Record(from, bytes[from..i + 1])] + rest;
      Regroup([Record(from, bytes[from..i + 1])], rest, Records(bytes, start));
    }
  }

  /** When the retained bytes start at a boundary, the new file's records are the last records of the old file. */
  lemma RotationKeepsWholeRecords(bytes: string)
    requires |bytes| > ROTATE_AT_BYTES
    requires LF in Window(bytes) || bytes[|bytes| - ROTATION_KEEP_BYTES - 1] == LF
    ensures var shift := |bytes| - |Rotated(bytes)|;
      exists dropped :: Records(bytes, 0) == dropped + Shifted(Records(Rotated(bytes), 0), shift)
  {
    hide Records, NewlineFrom, Shifted;
    var shift := |bytes| - |Rotated(bytes)|;
    RetainedBoundaryIff(bytes);
    RotatedIsSuffix(bytes);
    RecordsShifted(bytes, shift, 0);
    var dropped := RecordsThrough(bytes, 0, shift);
  }

  datatype ComponentRotation = ComponentRotation(component: Component, previousBytes: nat, retainedBytes: nat)

  /** The rotations that the first `n` components of these files need. */
  function Rotations(files: Files, n: nat): seq<ComponentRotation>
    requires n <= 5
  {
    if n == 0 then []
    else
      var c := COMPONENTS[n - 1];
      Rotations(files, n - 1)
      + (if c in files && !c.Arena? && |files[c].bytes| > ROTATE_AT_BYTES
         then [ComponentRotation(c, |files[c].bytes|, |Rotated(files[c].bytes)|)] else [])
  }

  function FileViews(files: map<Component, LogFile>): Files
    reads files.Values
  {
    map c | c in files :: FileView(files[c].identity, files[c].bytes)
  }

  /** Rotates every overlarge file except Arena's, which holds the drafted deck, and reports the sizes in component
      order. */
  method RotateOverlarge(files: map<Component, LogFile>) returns (rotated: seq<ComponentRotation>)
    requires forall c, d | c in files && d in files && c != d :: files[c] != files[d]
    modifies files.Values
    ensures Component.Arena in files ==> files[Component.Arena].bytes == old(files[Component.Arena].bytes)
    ensures forall c | c in files && !c.Arena? :: files[c].bytes == Rotated(old(files[c].bytes))
    ensures rotated == Rotations(old(FileViews(files)), 5)
  {
    hide Rotated, Rotations;
    ComponentRanks();
    ghost var view := FileViews(files);
    rotated := [];
    NoRotations(view);
    for i := 0 to 5
      invariant forall c | c in files ::
        files[c].bytes == if c.Rank() < i && !c.Arena? then Rotated(view[c].bytes) else view[c].bytes
      invariant rotated == Rotations(view, i)
    {
      var c := COMPONENTS[i];
      RotationsNext(view, i);
      assert forall d: Component | d.Rank() == i :: d == c;
      if !c.Arena? && c in files {
        assert files[c] in files.Values;
        var r := RotateComponentLog(files[c]);
        if r.Some? {
          rotated := rotated + [ComponentRotation(c, r.value.0, r.value.1)];
        }
      }
    }
  }

  lemma NoRotations(files: Files)
    ensures Rotations(files, 0) == []
  {
  }

  lemma RotationsNext(files: Files, n: nat)
    requires n < 5
    ensures var c := COMPONENTS[n];
      Rotations(files, n + 1) == Rotations(files, n)
        + (if c in files && !c.Arena? && |files[c].bytes| > ROTATE_AT_BYTES
           then [ComponentRotation(c, |files[c].bytes|, |Rotated(files[c].bytes)|)] else [])
  {
  }

  lemma {:induction false} OnlyFault(o: Observed, files: Files, c: Component, from: nat)
    requires from <= 5 && forall d: Component | d != c :: FaultAt(o, files, d).None?
    ensures FirstFault(o, files, from) == if from <= c.Rank() then FaultAt(o, files, c) else None
    decreases 5 - from
  {
    hide FaultAt;
    ComponentRanks();
    if from < 5 {
      OnlyFault(o, files, c, from + 1);
      assert COMPONENTS[c.Rank()] == c && COMPONENTS[from].Rank() == from;
    }
  }

  /** A poll of files that were fine before the rotation reports a truncation of the rotated one if and only if its
      cursor lies beyond the retained bytes. */
  lemma RotationIsNoticed(session: Session, o: Observed, files: Files, c: Component)
    requires FirstFault(o, files, 0).None? && c in files
    ensures var retained := Rotated(files[c].bytes);
      Poll(session, o, files[c := FileView(files[c].identity, retained)]) == Err(Truncated(c))
      <==> CursorAt(o.cursors, c).byteOffset > |retained|
  {
    hide FirstFault, Rotated, PolledState, InOrder, PendingMerged, WitnessMatches;
    ComponentRanks();
    var after := files[c := FileView(files[c].identity, Rotated(files[c].bytes))];
    forall d: Component ensures FaultAt(o, files, d).None? {
      assert COMPONENTS[d.Rank()] == d;
    }
    forall d: Component | d != c ensures FaultAt(o, after, d) == FaultAt(o, files, d) {
      assert d in after <==> d in files;
      assert d in files ==> after[d] == files[d];
    }
    OnlyFault(o, after, c, 0);
  }
}
