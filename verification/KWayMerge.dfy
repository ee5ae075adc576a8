/** Merging component streams by repeatedly taking the least head: when it is a sort, and exactly when
    reading in instalments gives the same order as reading everything at once. */
module KWayMerge {
  import opened Prelude
  import opened LineGrammar

  /** Timestamp first (a missing one sorts before every other), then component, then offset. */
  datatype LineOrder = LineOrder(timestamp: Option<nat>, component: Component, byteOffset: nat)

  function OrderOf(line: RawLogLine): LineOrder {
    LineOrder(line.timestampKey, line.component, line.byteOffset)
  }

  predicate Before(a: LineOrder, b: LineOrder) {
    if a.timestamp != b.timestamp then
      b.timestamp.Some? && (a.timestamp.None? || a.timestamp.value < b.timestamp.value)
    else if a.component != b.component then a.component.Rank() < b.component.Rank()
    else a.byteOffset < b.byteOffset
  }

  predicate Precedes(a: RawLogLine, b: RawLogLine) {
    Before(OrderOf(a), OrderOf(b))
  }

  lemma PrecedesTransitive(a: RawLogLine, b: RawLogLine, c: RawLogLine)
    requires Precedes(a, b) && Precedes(b, c)
    ensures Precedes(a, c)
  {
  }

  lemma PrecedesTotal(a: RawLogLine, b: RawLogLine)
    requires a.component != b.component
    ensures Precedes(a, b) != Precedes(b, a)
  {
  }

  /** One stream of pending lines per component, indexed by rank. */
  type Streams = seq<seq<RawLogLine>>

  predicate Tagged(streams: Streams) {
    forall c | 0 <= c < |streams| :: forall line | line in streams[c] :: line.component.Rank() == c
  }

  function Size(streams: Streams): nat {
    if streams == [] then 0 else |streams[0]| + Size(streams[1..])
  }

  function Pop(streams: Streams, c: nat): Streams
    requires c < |streams| && streams[c] != []
  {
    streams[c := streams[c][1..]]
  }

  lemma {:induction false} PopSize(streams: Streams, c: nat)
    requires c < |streams| && streams[c] != []
    ensures Size(Pop(streams, c)) == Size(streams) - 1
  {
    if c > 0 {
      PopSize(streams[1..], c - 1);
      assert Pop(streams, c)[1..] == Pop(streams[1..], c - 1);
    } else {
      assert Pop(streams, c)[1..] == streams[1..];
    }
  }

  lemma {:induction false} SizeZero(streams: Streams)
    ensures Size(streams) == 0 <==> forall c | 0 <= c < |streams| :: streams[c] == []
  {
    if streams != [] {
      SizeZero(streams[1..]);
      assert Size(streams) == 0 ==> forall c | 0 < c < |streams| :: streams[c] == streams[1..][c - 1];
      assert forall c | 0 <= c < |streams[1..]| :: streams[1..][c] == streams[c + 1];
    }
  }

  predicate IsLeastHead(streams: Streams, c: nat) {
    && c < |streams| && streams[c] != []
    && forall d | 0 <= d < |streams| && d != c && streams[d] != [] :: Precedes(streams[c][0], streams[d][0])
  }

  lemma HeadComponent(streams: Streams, c: nat)
    requires Tagged(streams) && c < |streams| && streams[c] != []
    ensures streams[c][0].component.Rank() == c
  {
    assert streams[c][0] in streams[c];
  }

  lemma HeadsTotal(streams: Streams, c: nat, d: nat)
    requires Tagged(streams) && c < |streams| && d < |streams| && c != d && streams[c] != [] && streams[d] != []
    ensures Precedes(streams[c][0], streams[d][0]) != Precedes(streams[d][0], streams[c][0])
  {
    HeadComponent(streams, c);
    HeadComponent(streams, d);
    PrecedesTotal(streams[c][0], streams[d][0]);
  }

  /** The stream whose head is least among the first `n`. */
  function LeastAmong(streams: Streams, n: nat): (r: Option<nat>)
    requires Tagged(streams) && n <= |streams|
    ensures r.None? <==> forall c | 0 <= c < n :: streams[c] == []
    ensures r.Some? ==> r.value < n && streams[r.value] != []
    ensures r.Some? ==>
      forall d | 0 <= d < n && d != r.value && streams[d] != [] :: Precedes(streams[r.value][0], streams[d][0])
  {
    if n == 0 then None
    else
      var best := LeastAmong(streams, n - 1);
      if streams[n - 1] == [] then best
      else if best.None? then Some(n - 1)
      else if Precedes(streams[n - 1][0], streams[best.value][0]) then
        assert forall d | 0 <= d < n - 1 && d != best.value && streams[d] != [] ::
            Precedes(streams[n - 1][0], streams[d][0]) by {
          forall d | 0 <= d < n - 1 && d != best.value && streams[d] != []
            ensures Precedes(streams[n - 1][0], streams[d][0])
          {
            PrecedesTransitive(streams[n - 1][0], streams[best.value][0], streams[d][0]);
          }
        }
        Some(n - 1)
      else
        HeadsTotal(streams, n - 1, best.value);
        best
  }

  lemma LeastHeadUnique(streams: Streams, c: nat)
    requires Tagged(streams) && IsLeastHead(streams, c)
    ensures LeastAmong(streams, |streams|) == Some(c)
  {
    var best := LeastAmong(streams, |streams|).value;
    if best != c {
      HeadsTotal(streams, best, c);
    }
  }

  lemma PopTagged(streams: Streams, c: nat)
    requires Tagged(streams) && c < |streams| && streams[c] != []
    ensures Tagged(Pop(streams, c))
  {
    assert streams[c] == [streams[c][0]] + streams[c][1..];
  }

  /** Repeatedly the least head. */
  function Merge(streams: Streams): (r: seq<RawLogLine>)
    requires Tagged(streams)
    decreases Size(streams)
  {
    match LeastAmong(streams, |streams|)
    case None => []
    case Some(c) =>
      PopSize(streams, c);
      PopTagged(streams, c);
      [streams[c][0]] + Merge(Pop(streams, c))
  }

  lemma MergeStep(streams: Streams, c: nat)
    requires Tagged(streams) && IsLeastHead(streams, c)
    ensures Tagged(Pop(streams, c)) && Merge(streams) == [streams[c][0]] + Merge(Pop(streams, c))
    ensures Size(Pop(streams, c)) < Size(streams)
  {
    LeastHeadUnique(streams, c);
    PopTagged(streams, c);
    PopSize(streams, c);
  }

  /** The merge of nothing is nothing; otherwise some head is least. */
  lemma MergeCases(streams: Streams) returns (c: Option<nat>)
    requires Tagged(streams)
    ensures c.None? ==> Merge(streams) == [] && forall d | 0 <= d < |streams| :: streams[d] == []
    ensures c.Some? ==> IsLeastHead(streams, c.value)
    ensures c.None? <==> Size(streams) == 0
  {
    c := LeastAmong(streams, |streams|);
    SizeZero(streams);
  }

  // An interleaving that keeps each component's order.

  function Project(lines: seq<RawLogLine>, c: nat): seq<RawLogLine> {
    if lines == [] then []
    else (if lines[0].component.Rank() == c then [lines[0]] else []) + Project(lines[1..], c)
  }

  lemma {:induction false} MergeProjects(streams: Streams, c: nat)
    requires Tagged(streams) && c < |streams|
    ensures Project(Merge(streams), c) == streams[c]
    decreases Size(streams)
  {
    hide Merge, Size, IsLeastHead;
    var least := MergeCases(streams);
    if least.Some? {
      MergeStep(streams, least.value);
      var rest := Pop(streams, least.value);
      MergeProjects(rest, c);
      var head := streams[least.value][0];
      LeastHeadNonEmpty(streams, least.value);
      HeadComponent(streams, least.value);
      assert Merge(streams)[1..] == Merge(rest);
    }
  }

  lemma LeastHeadNonEmpty(streams: Streams, c: nat)
    requires IsLeastHead(streams, c)
    ensures c < |streams| && streams[c] != []
  {
  }

  lemma {:induction false} ProjectMembers(lines: seq<RawLogLine>, c: nat, line: RawLogLine)
    ensures line in Project(lines, c) <==> line in lines && line.component.Rank() == c
  {
    if lines != [] {
      ProjectMembers(lines[1..], c, line);
      assert lines == [lines[0]] + lines[1..];
    }
  }

  lemma {:induction false} MergeRanks(streams: Streams, line: RawLogLine)
    requires Tagged(streams) && line in Merge(streams)
    ensures line.component.Rank() < |streams|
    decreases Size(streams)
  {
    hide Merge, Size, IsLeastHead;
    var least := MergeCases(streams);
    if least.Some? {
      LeastHeadNonEmpty(streams, least.value);
      HeadComponent(streams, least.value);
      MergeStep(streams, least.value);
      if line != streams[least.value][0] {
        MergeRanks(Pop(streams, least.value), line);
      }
    }
  }

  /** The merge holds exactly the lines of the streams. */
  lemma MergeMembers(streams: Streams, line: RawLogLine)
    requires Tagged(streams)
    ensures line in Merge(streams) <==>
      line.component.Rank() < |streams| && line in streams[line.component.Rank()]
  {
    if line in Merge(streams) {
      MergeRanks(streams, line);
    }
    var c := line.component.Rank();
    if c < |streams| {
      MergeProjects(streams, c);
      ProjectMembers(Merge(streams), c, line);
    }
  }

  // Sorting.

  ghost predicate Sorted(lines: seq<RawLogLine>) {
    forall i, j | 0 <= i < j < |lines| :: !Precedes(lines[j], lines[i])
  }

  lemma SortedCons(first: RawLogLine, rest: seq<RawLogLine>)
    ensures Sorted([first] + rest) <==> Sorted(rest) && forall line | line in rest :: !Precedes(line, first)
  {
    hide Precedes;
    var all := [first] + rest;
    if Sorted(all) {
      forall i, j | 0 <= i < j < |rest| ensures !Precedes(rest[j], rest[i]) {
        assert all[i + 1] == rest[i] && all[j + 1] == rest[j];
      }
      forall line | line in rest ensures !Precedes(line, first) {
        var j :| 0 <= j < |rest| && rest[j] == line;
        assert all[j + 1] == line && all[0] == first;
      }
    }
    if Sorted(rest) && forall line | line in rest :: !Precedes(line, first) {
      forall i, j | 0 <= i < j < |all| ensures !Precedes(all[j], all[i]) {
        assert all[j] == rest[j - 1];
        if i > 0 {
          assert all[i] == rest[i - 1];
        }
      }
    }
  }

  lemma NotAfterTransitive(a: RawLogLine, b: RawLogLine, c: RawLogLine)
    requires !Precedes(b, a) && !Precedes(c, b)
    ensures !Precedes(c, a)
  {
  }

  lemma {:induction false} ProjectSorted(lines: seq<RawLogLine>, c: nat)
    requires Sorted(lines)
    ensures Sorted(Project(lines, c))
  {
    hide Sorted, Precedes;
    if lines == [] {
      assert Sorted([]) by { SortedEmpty(); }
    } else {
      var first, rest := lines[0], lines[1..];
      assert lines == [first] + rest;
      SortedCons(first, rest);
      ProjectSorted(rest, c);
      if first.component.Rank() == c {
        forall line | line in Project(rest, c) ensures !Precedes(line, first) {
          ProjectMembers(rest, c, line);
        }
        SortedCons(first, Project(rest, c));
      } else {
        assert [] + Project(rest, c) == Project(rest, c);
      }
    }
  }

  lemma SortedEmpty()
    ensures Sorted([])
  {
  }

  ghost predicate AllSorted(streams: Streams) {
    forall c | 0 <= c < |streams| :: Sorted(streams[c])
  }

  lemma StreamTail(streams: Streams, c: nat)
    requires c < |streams| && streams[c] != [] && AllSorted(streams)
    ensures AllSorted(Pop(streams, c))
    ensures forall line | line in streams[c][1..] :: !Precedes(line, streams[c][0])
  {
    hide Precedes;
    assert streams[c] == [streams[c][0]] + streams[c][1..];
    SortedCons(streams[c][0], streams[c][1..]);
  }

  /** The least head precedes everything that is left in sorted streams. */
  lemma LeastHeadLeads(streams: Streams, c: nat, line: RawLogLine)
    requires Tagged(streams) && AllSorted(streams) && IsLeastHead(streams, c)
    requires line in Merge(Pop(streams, c)) && Tagged(Pop(streams, c))
    ensures !Precedes(line, streams[c][0])
  {
    hide Precedes, Merge;
    StreamTail(streams, c);
    var rest := Pop(streams, c);
    MergeMembers(rest, line);
    var d := line.component.Rank();
    if d != c {
      assert line in streams[d];
      StreamTail(streams, d);
      assert streams[d] == [streams[d][0]] + streams[d][1..];
      HeadsTotal(streams, c, d);
      if line != streams[d][0] {
        NotAfterTransitive(streams[c][0], streams[d][0], line);
      }
    }
  }

  lemma {:induction false} SortedStreamsMergeSorted(streams: Streams)
    requires Tagged(streams) && AllSorted(streams)
    ensures Sorted(Merge(streams))
    decreases Size(streams)
  {
    hide Merge, Size, Sorted, IsLeastHead, Precedes;
    var least := MergeCases(streams);
    if least.Some? {
      var c := least.value;
      LeastHeadNonEmpty(streams, c);
      MergeStep(streams, c);
      StreamTail(streams, c);
      SortedStreamsMergeSorted(Pop(streams, c));
      forall line | line in Merge(Pop(streams, c)) ensures !Precedes(line, streams[c][0]) {
        LeastHeadLeads(streams, c, line);
      }
      SortedCons(streams[c][0], Merge(Pop(streams, c)));
    } else {
      SortedEmpty();
    }
  }

  /** The merged output is sorted exactly when every stream is. */
  lemma MergeSortedIff(streams: Streams)
    requires Tagged(streams)
    ensures Sorted(Merge(streams)) <==> AllSorted(streams)
  {
    hide Sorted, Merge;
    if AllSorted(streams) {
      SortedStreamsMergeSorted(streams);
    }
    if Sorted(Merge(streams)) {
      forall c | 0 <= c < |streams| ensures Sorted(streams[c]) {
        MergeProjects(streams, c);
        ProjectSorted(Merge(streams), c);
      }
    }
  }

  /** `lines` interleaves the streams: each component's lines are its stream, in order. */
  predicate Interleaves(lines: seq<RawLogLine>, streams: Streams) {
    && (forall c | 0 <= c < |streams| :: Project(lines, c) == streams[c])
    && (forall line | line in lines :: line.component.Rank() < |streams|)
  }

  lemma MergeInterleaves(streams: Streams)
    requires Tagged(streams)
    ensures Interleaves(Merge(streams), streams)
  {
    hide Merge;
    forall c | 0 <= c < |streams| ensures Project(Merge(streams), c) == streams[c] {
      MergeProjects(streams, c);
    }
    forall line | line in Merge(streams) ensures line.component.Rank() < |streams| {
      MergeRanks(streams, line);
    }
  }

  lemma SortedFrontIsLeast(streams: Streams, lines: seq<RawLogLine>)
    requires Tagged(streams) && Interleaves(lines, streams) && Sorted(lines) && lines != []
    ensures var c := lines[0].component.Rank();
      && IsLeastHead(streams, c) && streams[c][0] == lines[0]
      && Interleaves(lines[1..], Pop(streams, c))
  {
    hide Precedes;
    var first, rest := lines[0], lines[1..];
    var c := first.component.Rank();
    assert lines == [first] + rest;
    SortedCons(first, rest);
    assert streams[c] == Project(lines, c) == [first] + Project(rest, c);
    forall d | 0 <= d < |streams| && d != c && streams[d] != [] ensures Precedes(streams[c][0], streams[d][0]) {
      assert streams[d] == Project(lines, d) == [] + Project(rest, d);
      ProjectMembers(rest, d, streams[d][0]);
      HeadsTotal(streams, c, d);
    }
    forall d | 0 <= d < |streams| ensures Project(rest, d) == Pop(streams, c)[d] {
      assert streams[d] == Project(lines, d);
    }
  }

  /** The merge of sorted streams is the only sorted interleaving of them. */
  lemma {:induction false} MergeIsTheSort(streams: Streams, lines: seq<RawLogLine>)
    requires Tagged(streams) && Interleaves(lines, streams) && Sorted(lines)
    ensures lines == Merge(streams)
    decreases lines
  {
    hide Merge, Precedes, Interleaves, IsLeastHead, Sorted;
    var least := MergeCases(streams);
    if lines == [] {
      EmptyInterleaving(streams);
    } else {
      var c := lines[0].component.Rank();
      SortedFrontIsLeast(streams, lines);
      LeastHeadNonEmpty(streams, c);
      MergeStep(streams, c);
      assert lines == [lines[0]] + lines[1..];
      SortedCons(lines[0], lines[1..]);
      MergeIsTheSort(Pop(streams, c), lines[1..]);
    }
  }

  lemma EmptyInterleaving(streams: Streams)
    requires Tagged(streams) && Interleaves([], streams)
    ensures Merge(streams) == []
  {
    assert forall c | 0 <= c < |streams| :: streams[c] == Project([], c);
  }

  // Reading in instalments.

  function Extend(streams: Streams, later: Streams): (r: Streams)
    requires |streams| == |later|
    ensures |r| == |streams|
  {
    seq(|streams|, c requires 0 <= c < |streams| => streams[c] + later[c])
  }

  predicate NoneFrom(lines: seq<RawLogLine>, from: nat, c: nat) {
    forall j | from <= j < |lines| :: lines[j].component.Rank() != c
  }

  /** Every line merged after a component's last one precedes that component's next line. */
  ghost predicate Continues(merged: seq<RawLogLine>, later: Streams) {
    forall c, i | 0 <= c < |later| && later[c] != [] && 0 <= i < |merged| && NoneFrom(merged, i, c) ::
      Precedes(merged[i], later[c][0])
  }

  lemma ExtendTagged(streams: Streams, later: Streams)
    requires |streams| == |later| && Tagged(streams) && Tagged(later)
    ensures Tagged(Extend(streams, later))
  {
  }

  lemma ExtendPop(streams: Streams, later: Streams, c: nat)
    requires |streams| == |later| && c < |streams| && streams[c] != []
    ensures Extend(streams, later)[c] != [] && Extend(streams, later)[c][0] == streams[c][0]
    ensures Pop(Extend(streams, later), c) == Extend(Pop(streams, c), later)
  {
    assert (streams[c] + later[c])[1..] == streams[c][1..] + later[c];
  }

  lemma {:induction false} AbsentFromMerge(streams: Streams, c: nat)
    requires Tagged(streams) && c < |streams|
    ensures NoneFrom(Merge(streams), 0, c) <==> streams[c] == []
  {
    hide Merge;
    var merged := Merge(streams);
    MergeProjects(streams, c);
    if streams[c] == [] {
      forall j | 0 <= j < |merged| ensures merged[j].component.Rank() != c {
        ProjectMembers(merged, c, merged[j]);
      }
    } else {
      ProjectMembers(merged, c, streams[c][0]);
      HeadComponent(streams, c);
    }
  }

  lemma ContinuesCons(streams: Streams, first: RawLogLine, rest: seq<RawLogLine>, later: Streams)
    requires Tagged(streams) && |later| == |streams| && Merge(streams) == [first] + rest
    ensures Continues([first] + rest, later) <==>
      && Continues(rest, later)
      && forall c | 0 <= c < |later| && later[c] != [] && streams[c] == [] :: Precedes(first, later[c][0])
  {
    hide Precedes, Merge;
    var all := [first] + rest;
    forall c | 0 <= c < |streams| ensures NoneFrom(all, 0, c) <==> streams[c] == [] {
      AbsentFromMerge(streams, c);
    }
    forall i, c | 0 <= i < |rest| ensures NoneFrom(all, i + 1, c) <==> NoneFrom(rest, i, c) {
      assert forall j | i <= j < |rest| :: all[j + 1] == rest[j];
      assert forall j | i + 1 <= j < |all| :: all[j] == rest[j - 1];
    }
    if Continues(all, later) {
      forall c, i | 0 <= c < |later| && later[c] != [] && 0 <= i < |rest| && NoneFrom(rest, i, c)
        ensures Precedes(rest[i], later[c][0])
      {
        assert NoneFrom(all, i + 1, c) && all[i + 1] == rest[i];
      }
    }
    if Continues(rest, later)
       && forall c | 0 <= c < |later| && later[c] != [] && streams[c] == [] :: Precedes(first, later[c][0]) {
      forall c, i | 0 <= c < |later| && later[c] != [] && 0 <= i < |all| && NoneFrom(all, i, c)
        ensures Precedes(all[i], later[c][0])
      {
        if i > 0 {
          assert NoneFrom(rest, i - 1, c) && all[i] == rest[i - 1];
        }
      }
    }
  }

  /** The least old head stays least in the extended streams unless a component that has run dry comes in below it. */
  lemma ExtendedLeast(streams: Streams, later: Streams, c: nat)
    requires |streams| == |later| && Tagged(streams) && Tagged(later) && IsLeastHead(streams, c)
    ensures IsLeastHead(Extend(streams, later), c) <==>
      forall d | 0 <= d < |later| && later[d] != [] && streams[d] == [] :: Precedes(streams[c][0], later[d][0])
  {
    hide Precedes;
    var wide := Extend(streams, later);
    ExtendPop(streams, later, c);
    forall d | 0 <= d < |streams| && streams[d] == [] ensures wide[d] == later[d] {
    }
    forall d | 0 <= d < |streams| && streams[d] != [] ensures wide[d] != [] && wide[d][0] == streams[d][0] {
    }
  }

  lemma DifferentFront(streams: Streams, later: Streams, c: nat)
    requires |streams| == |later| && Tagged(streams) && Tagged(later) && Tagged(Extend(streams, later))
    requires IsLeastHead(streams, c) && !IsLeastHead(Extend(streams, later), c)
    ensures Merge(Extend(streams, later)) != Merge(streams) + Merge(later)
  {
    hide Merge, Precedes;
    var wide := Extend(streams, later);
    ExtendPop(streams, later, c);
    var least := MergeCases(wide);
    SizeZero(wide);
    MergeStep(wide, least.value);
    MergeStep(streams, c);
    HeadComponent(wide, least.value);
    HeadComponent(streams, c);
    assert Merge(wide)[0].component.Rank() == least.value;
    assert (Merge(streams) + Merge(later))[0].component.Rank() == c;
  }

  /** Merging what was there and then what came later gives the merge of everything exactly when no later line
      belongs below a line already merged. */
  lemma {:induction false} InstalmentsMatchIff(streams: Streams, later: Streams)
    requires |streams| == |later| && Tagged(streams) && Tagged(later)
    ensures Tagged(Extend(streams, later))
    ensures Merge(Extend(streams, later)) == Merge(streams) + Merge(later) <==> Continues(Merge(streams), later)
    decreases Size(streams)
  {
    hide Merge, Size, Precedes, Continues, IsLeastHead;
    ExtendTagged(streams, later);
    var least := MergeCases(streams);
    match least
    case None =>
      forall c | 0 <= c < |streams| ensures Extend(streams, later)[c] == later[c] {
        assert [] + later[c] == later[c];
      }
      assert Extend(streams, later) == later;
      ContinuesNothing(later);
    case Some(c) =>
      LeastHeadNonEmpty(streams, c);
      MergeStep(streams, c);
      var first, rest := streams[c][0], Merge(Pop(streams, c));
      ContinuesCons(streams, first, rest, later);
      ExtendedLeast(streams, later, c);
      if IsLeastHead(Extend(streams, later), c) {
        ExtendPop(streams, later, c);
        MergeStep(Extend(streams, later), c);
        InstalmentsMatchIff(Pop(streams, c), later);
        ConsEqual(first, Merge(Extend(Pop(streams, c), later)), rest, Merge(later));
      } else {
        DifferentFront(streams, later, c);
      }
  }

  lemma ContinuesNothing(later: Streams)
    ensures Continues([], later)
  {
  }

  lemma ConsEqual<T>(first: T, whole: seq<T>, rest: seq<T>, later: seq<T>)
    ensures [first] + whole == ([first] + rest) + later <==> whole == rest + later
  {
    assert ([first] + rest) + later == [first] + (rest + later);
    assert ([first] + whole)[1..] == whole;
    assert ([first] + (rest + later))[1..] == rest + later;
  }
}
