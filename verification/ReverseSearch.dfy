/** Backward reads in fixed-size chunks, proved equal to looking at the whole file.
    Files are append-only byte strings; the chunk size is any positive number. */
module ReverseSearch {
  import opened Prelude
  import opened Text
  import opened LogRecords

  datatype LineMatch = LineMatch(lineStart: nat, complete: bool)

  datatype SearchError = EmptyNeedle

  /** `rposition` of a byte. */
  function LastIndexOf(s: string, c: char): (r: Option<nat>)
    ensures r.Some? ==> r.value < |s| && s[r.value] == c && c !in s[r.value + 1..]
    ensures r.None? ==> c !in s
  {
    if s == [] then None
    else if s[|s| - 1] == c then Some(|s| - 1)
    else
      var r := LastIndexOf(s[..|s| - 1], c);
      assert r.Some? ==> s[r.value + 1..] == s[..|s| - 1][r.value + 1..] + [s[|s| - 1]];
      assert s == s[..|s| - 1] + [s[|s| - 1]];
      r
  }

  /** `windows(n).rposition`: the last occurrence that starts at or before `from`. */
  function LastOccurrence(s: string, needle: string, from: nat): (r: Option<nat>)
    ensures r.Some? ==> r.value <= from && StartsAt(s, needle, r.value)
    ensures forall i | (if r.Some? then r.value else -1) < i <= from :: !StartsAt(s, needle, i)
  {
    if StartsAt(s, needle, from) then Some(from)
    else if from == 0 then None
    else LastOccurrence(s, needle, from - 1)
  }

  /** The line of the last occurrence, found by looking at the whole file. */
  function NaiveLastLine(file: string, needle: string): Option<LineMatch> {
    match LastOccurrence(file, needle, |file|)
    case None => None
    case Some(at) => Some(LineMatch(LastLineEnd(file[..at]), LF in file[at..]))
  }

  /** What is found is the line on which the last occurrence begins; nothing is found only if there is none. */
  lemma NewestLine(file: string, needle: string)
    ensures NaiveLastLine(file, needle).None? ==> forall i :: !(0 <= i && StartsAt(file, needle, i))
    ensures NaiveLastLine(file, needle).Some? ==>
      var found := NaiveLastLine(file, needle).value;
      && IsBoundary(file, found.lineStart)
      && exists at: nat ::
           && StartsAt(file, needle, at) && (forall later | at < later :: !StartsAt(file, needle, later))
           && found.lineStart <= at && LF !in file[found.lineStart..at] && (found.complete <==> LF in file[at..])
  {
    hide LastLineEnd;
    if NaiveLastLine(file, needle).Some? {
      var at := LastOccurrence(file, needle, |file|).value;
      var start := LastLineEnd(file[..at]);
      assert file[..at][start..] == file[start..at];
    }
  }

  lemma LastOccurrenceUnique(s: string, needle: string, from: nat, at: nat)
    requires at <= from && StartsAt(s, needle, at)
    requires forall i | at < i <= from :: !StartsAt(s, needle, i)
    ensures LastOccurrence(s, needle, from) == Some(at)
  {
  }

  /** The position after the last newline before `offset`, chunk by chunk. */
  method FindLineStart(file: string, offset: nat, chunk: nat) returns (start: nat)
    requires offset <= |file| && chunk >= 1
    ensures start == LastLineEnd(file[..offset])
  {
    var searchEnd: nat := offset;
    while true
      invariant searchEnd <= offset && LF !in file[searchEnd..offset]
      decreases searchEnd
    {
      var from: nat := if searchEnd >= chunk then searchEnd - chunk else 0;
      if searchEnd == from {
        LastLineEndUnique(file[..offset], 0);
        return 0;
      }
      var buffer := file[from..searchEnd];
      var index := LastIndexOf(buffer, LF);
      assert file[from..offset] == buffer + file[searchEnd..offset];
      if index.Some? {
        start := from + index.value + 1;
        assert file[..offset][start..] == buffer[index.value + 1..] + file[searchEnd..offset];
        LastLineEndUnique(file[..offset], start);
        return;
      }
      if from == 0 {
        assert file[..offset] == buffer + file[searchEnd..offset];
        LastLineEndUnique(file[..offset], 0);
        return 0;
      }
      searchEnd := from;
    }
  }

  /** Whether a newline follows the marker, chunk by chunk. */
  method LineIsComplete(file: string, marker: nat, chunk: nat) returns (complete: bool)
    requires marker <= |file| && chunk >= 1
    ensures complete <==> LF in file[marker..]
  {
    var offset := marker;
    while offset < |file|
      invariant marker <= offset <= |file| && LF !in file[marker..offset]
    {
      var length := Min(|file| - offset, chunk);
      assert file[marker..offset + length] == file[marker..offset] + file[offset..offset + length];
      if LF in file[offset..offset + length] {
        assert file[marker..] == file[marker..offset + length] + file[offset + length..];
        return true;
      }
      offset := offset + length;
    }
    assert file[marker..] == file[marker..offset];
    return false;
  }

  /** The cursor after the last complete line. */
  method TailCursor(file: string, chunk: nat) returns (offset: nat)
    requires chunk >= 1
    ensures offset == LastLineEnd(file)
  {
    assert file[..|file|] == file;
    offset := FindLineStart(file, |file|, chunk);
  }

  /** The last match in one block that starts in its primary part. A match in the right overlap restarts the
      search before it, which could step over a match that overlaps it. */
  method SearchBlock(bytes: string, needle: string, primaryLength: nat) returns (found: Option<nat>)
    requires needle != "" && primaryLength <= |bytes|
    ensures found.Some? ==> found.value < primaryLength && StartsAt(bytes, needle, found.value)
    ensures (forall i | primaryLength <= i :: !StartsAt(bytes, needle, i)) ==>
      forall i | (if found.Some? then found.value else -1) < i :: !StartsAt(bytes, needle, i)
  {
    var searchEnd: nat := |bytes|;
    while searchEnd >= |needle|
      invariant searchEnd <= |bytes|
      invariant (forall i | primaryLength <= i :: !StartsAt(bytes, needle, i)) ==> searchEnd == |bytes|
    {
      var window := bytes[..searchEnd];
      var relative := LastOccurrence(window, needle, searchEnd - |needle|);
      assert forall i: nat | i <= searchEnd - |needle| :: StartsAt(window, needle, i) <==> StartsAt(bytes, needle, i) by {
        forall i: nat | i <= searchEnd - |needle|
          ensures StartsAt(window, needle, i) <==> StartsAt(bytes, needle, i)
        {
          assert window[i..i + |needle|] == bytes[i..i + |needle|];
        }
      }
      if relative.None? {
        break;
      }
      if relative.value < primaryLength {
        return relative;
      }
      searchEnd := relative.value;
    }
    return None;
  }

  /** With no match from `primaryEnd` on, the right overlap of a block holds no match start. */
  lemma RightOverlapIsClean(file: string, needle: string, primaryStart: nat, primaryEnd: nat, readEnd: nat)
    requires primaryStart <= primaryEnd <= readEnd <= |file|
    requires forall i | primaryEnd <= i :: !StartsAt(file, needle, i)
    ensures forall i | primaryEnd - primaryStart <= i :: !StartsAt(file[primaryStart..readEnd], needle, i)
  {
    forall i | primaryEnd - primaryStart <= i ensures !StartsAt(file[primaryStart..readEnd], needle, i) {
      if StartsAt(file[primaryStart..readEnd], needle, i) {
        var at := primaryStart + i;
        assert file[at..at + |needle|] == file[primaryStart..readEnd][i..i + |needle|];
        assert StartsAt(file, needle, at);
      }
    }
  }

  lemma SliceOfSlice(s: string, a: nat, b: nat, i: nat, j: nat)
    requires a <= b <= |s| && i <= j && a + j <= b
    ensures s[a..b][i..j] == s[a + i..a + j]
  {
    assert forall k | 0 <= k < j - i :: s[a..b][i..j][k] == s[a..b][i + k] == s[a + i + k] == s[a + i..a + j][k];
  }

  /** A match that starts in the primary part fits into the block. */
  lemma BlockSeesPrimary(file: string, needle: string, primaryStart: nat, primaryEnd: nat, readEnd: nat, i: nat)
    requires primaryStart + i < primaryEnd <= |file| && needle != ""
    requires readEnd == Min(primaryEnd + |needle| - 1, |file|)
    ensures StartsAt(file[primaryStart..readEnd], needle, i) <==> StartsAt(file, needle, primaryStart + i)
  {
    var at := primaryStart + i;
    var block := file[primaryStart..readEnd];
    if at + |needle| <= |file| {
      assert i + |needle| <= |block|;
      SliceOfSlice(file, primaryStart, readEnd, i, i + |needle|);
    }
  }

  method FindLastLineContaining(file: string, needle: string, chunk: nat)
    returns (r: Result<Option<LineMatch>, SearchError>)
    requires chunk >= 1
    ensures r == if needle == "" then Err(EmptyNeedle) else Ok(NaiveLastLine(file, needle))
  {
    if needle == "" {
      return Err(EmptyNeedle);
    }
    var overlap := |needle| - 1;
    var primaryEnd: nat := |file|;
    while primaryEnd > 0
      invariant primaryEnd <= |file|
      invariant forall i | primaryEnd <= i :: !StartsAt(file, needle, i)
    {
      var primaryStart: nat := if primaryEnd >= chunk then primaryEnd - chunk else 0;
      var readEnd := Min(primaryEnd + overlap, |file|);
      var bytes := file[primaryStart..readEnd];
      var found := SearchBlock(bytes, needle, primaryEnd - primaryStart);
      RightOverlapIsClean(file, needle, primaryStart, primaryEnd, readEnd);
      forall i | 0 <= i < primaryEnd - primaryStart
        ensures StartsAt(bytes, needle, i) <==> StartsAt(file, needle, primaryStart + i)
      {
        BlockSeesPrimary(file, needle, primaryStart, primaryEnd, readEnd, i);
      }
      if found.Some? {
        var marker := primaryStart + found.value;
        forall at | marker < at ensures !StartsAt(file, needle, at) {
          if at < primaryEnd {
            assert StartsAt(bytes, needle, at - primaryStart) <==> StartsAt(file, needle, primaryStart + (at - primaryStart));
          }
        }
        LastOccurrenceUnique(file, needle, |file|, marker);
        var lineStart := FindLineStart(file, marker, chunk);
        var complete := LineIsComplete(file, marker, chunk);
        return Ok(Some(LineMatch(lineStart, complete)));
      }
      forall at | primaryStart <= at ensures !StartsAt(file, needle, at) {
        if at < primaryEnd {
          assert StartsAt(bytes, needle, at - primaryStart) <==> StartsAt(file, needle, primaryStart + (at - primaryStart));
        }
      }
      primaryEnd := primaryStart;
    }
    return Ok(None);
  }
}
