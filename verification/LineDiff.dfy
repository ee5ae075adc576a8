/** The line diff shown before a configuration file is changed. */
module LineDiff {
  import opened Prelude
  import opened Text

  type Line = string

  // Lines of a text.

  /** `split_terminator('\n')` with one `\r` stripped from the end of each line. */
  function LogicalLines(source: string): seq<Line>
    decreases source
  {
    if source == [] then []
    else
      var end := LineLength(source);
      [StripCr(source[..end])] + LogicalLines(source[Min(end + 1, |source|)..])
  }

  // What a diff says.

  datatype DiffLine = Context(line: Line) | Minus(line: Line) | Plus(line: Line)

  function OldPart(d: DiffLine): seq<Line> { if d.Plus? then [] else [d.line] }

  function NewPart(d: DiffLine): seq<Line> { if d.Minus? then [] else [d.line] }

  function KeptPart(d: DiffLine): seq<Line> { if d.Context? then [d.line] else [] }

  /** The lines of the current text: context and removals. */
  function Before(diff: seq<DiffLine>): seq<Line> {
    if diff == [] then [] else OldPart(diff[0]) + Before(diff[1..])
  }

  /** The lines of the proposed text: context and additions. */
  function After(diff: seq<DiffLine>): seq<Line> {
    if diff == [] then [] else NewPart(diff[0]) + After(diff[1..])
  }

  function Kept(diff: seq<DiffLine>): seq<Line> {
    if diff == [] then [] else KeptPart(diff[0]) + Kept(diff[1..])
  }

  lemma {:induction false} DiffLength(diff: seq<DiffLine>)
    ensures |diff| + |Kept(diff)| == |Before(diff)| + |After(diff)|
  {
    if diff != [] {
      DiffLength(diff[1..]);
    }
  }

  /** A diff turns one list of lines into another. */
  predicate Rewrites(diff: seq<DiffLine>, before: seq<Line>, after: seq<Line>) {
    Before(diff) == before && After(diff) == after
  }

  lemma {:induction false} DiffConcat(a: seq<DiffLine>, b: seq<DiffLine>)
    ensures Before(a + b) == Before(a) + Before(b) && After(a + b) == After(a) + After(b)
    ensures Kept(a + b) == Kept(a) + Kept(b)
  {
    hide OldPart, NewPart, KeptPart;
    if a == [] {
      assert a + b == b;
    } else {
      assert (a + b)[0] == a[0] && (a + b)[1..] == a[1..] + b;
      DiffConcat(a[1..], b);
      Regroup(OldPart(a[0]), Before(a[1..]), Before(b));
      Regroup(NewPart(a[0]), After(a[1..]), After(b));
      Regroup(KeptPart(a[0]), Kept(a[1..]), Kept(b));
    }
  }

  lemma Regroup(x: seq<Line>, y: seq<Line>, z: seq<Line>)
    ensures (x + y) + z == x + (y + z)
  {
  }

  // Longest common subsequences.

  predicate Subsequence(c: seq<Line>, a: seq<Line>) {
    if c == [] then true
    else if a == [] then false
    else if c[0] == a[0] && Subsequence(c[1..], a[1..]) then true
    else Subsequence(c, a[1..])
  }

  /** The entry of the table for these two suffixes. */
  function Lcs(a: seq<Line>, b: seq<Line>): nat
    decreases |a| + |b|
  {
    if a == [] || b == [] then 0
    else if a[0] == b[0] then Lcs(a[1..], b[1..]) + 1
    else Max(Lcs(a[1..], b), Lcs(a, b[1..]))
  }

  lemma {:induction false} DropFirst(c: seq<Line>, a: seq<Line>)
    requires c != [] && Subsequence(c, a)
    ensures a != [] && Subsequence(c[1..], a[1..])
  {
    if !(c[0] == a[0] && Subsequence(c[1..], a[1..])) {
      DropFirst(c, a[1..]);
      SubsequenceLonger(c[1..], a[1..][1..], a[1]);
      assert [a[1]] + a[1..][1..] == a[1..];
    }
  }

  lemma {:induction false} SubsequenceLonger(c: seq<Line>, a: seq<Line>, x: Line)
    requires Subsequence(c, a)
    ensures Subsequence(c, [x] + a)
  {
    assert ([x] + a)[1..] == a;
  }

  /** Some common subsequence is as long as the table says. */
  lemma {:induction false} LcsIsAttained(a: seq<Line>, b: seq<Line>) returns (c: seq<Line>)
    ensures Subsequence(c, a) && Subsequence(c, b) && |c| == Lcs(a, b)
    decreases |a| + |b|
  {
    if a == [] || b == [] {
      c := [];
    } else if a[0] == b[0] {
      var rest := LcsIsAttained(a[1..], b[1..]);
      c := [a[0]] + rest;
      assert c[1..] == rest;
    } else if Lcs(a[1..], b) >= Lcs(a, b[1..]) {
      c := LcsIsAttained(a[1..], b);
      SubsequenceLonger(c, a[1..], a[0]);
      assert [a[0]] + a[1..] == a;
    } else {
      c := LcsIsAttained(a, b[1..]);
      SubsequenceLonger(c, b[1..], b[0]);
      assert [b[0]] + b[1..] == b;
    }
  }

  /** No common subsequence is longer than the table says. */
  lemma {:induction false} LcsIsUpperBound(a: seq<Line>, b: seq<Line>, c: seq<Line>)
    requires Subsequence(c, a) && Subsequence(c, b)
    ensures |c| <= Lcs(a, b)
    decreases |a| + |b|
  {
    if c != [] {
      DropFirst(c, a);
      DropFirst(c, b);
      if a[0] == b[0] {
        LcsIsUpperBound(a[1..], b[1..], c[1..]);
      } else if c[0] == a[0] {
        LcsIsUpperBound(a, b[1..], c);
      } else {
        LcsIsUpperBound(a[1..], b, c);
      }
    }
  }

  lemma {:induction false} KeptIsCommon(diff: seq<DiffLine>)
    ensures Subsequence(Kept(diff), Before(diff)) && Subsequence(Kept(diff), After(diff))
  {
    if diff != [] {
      KeptIsCommon(diff[1..]);
      var kept, before, after := Kept(diff[1..]), Before(diff[1..]), After(diff[1..]);
      var line := diff[0].line;
      match diff[0]
      case Context(_) =>
        assert ([line] + kept)[1..] == kept && ([line] + before)[1..] == before && ([line] + after)[1..] == after;
      case Minus(_) =>
        assert Kept(diff) == kept && Before(diff) == [line] + before && After(diff) == after;
        SubsequenceLonger(kept, before, line);
      case Plus(_) =>
        assert Kept(diff) == kept && Before(diff) == before && After(diff) == [line] + after;
        SubsequenceLonger(kept, after, line);
    }
  }

  /** No diff between the two texts keeps more lines, and so none is shorter. */
  lemma NoShorterDiff(diff: seq<DiffLine>, other: seq<DiffLine>, before: seq<Line>, after: seq<Line>)
    requires Rewrites(diff, before, after) && Rewrites(other, before, after)
    requires |Kept(diff)| == Lcs(before, after)
    ensures |Kept(other)| <= |Kept(diff)| && |diff| <= |other|
  {
    KeptIsCommon(other);
    LcsIsUpperBound(before, after, Kept(other));
    DiffLength(diff);
    DiffLength(other);
  }

  // The table.

  const MAX_LCS_CELLS: nat := 1_000_000

  function Cell(width: nat, i: nat, j: nat): nat {
    i * width + j
  }

  lemma CellInside(width: nat, rows: nat, i: nat, j: nat)
    requires i < rows && j < width
    ensures Cell(width, i, j) < rows * width
    ensures Cell(width, i, j) < Cell(width, i + 1, 0) == Cell(width, i, 0) + width <= rows * width
  {
    assert (i + 1) * width <= rows * width;
  }

  /** The entries of later rows come after every entry of this one. */
  lemma LaterRows(width: nat, row: nat)
    ensures forall i, j {:trigger Cell(width, i, j)} | row < i && 0 <= j :: Cell(width, row, 0) + width <= Cell(width, i, j)
  {
    forall i: nat, j: nat | row < i ensures Cell(width, row, 0) + width <= Cell(width, i, j) {
      assert (row + 1) * width <= i * width;
    }
  }

  lemma SuffixStep(before: seq<Line>, after: seq<Line>, i: nat, j: nat)
    requires i <= |before| && j <= |after|
    ensures Lcs(before[i..], after[j..]) ==
      if i == |before| || j == |after| then 0
      else if before[i] == after[j] then Lcs(before[i + 1..], after[j + 1..]) + 1
      else Max(Lcs(before[i + 1..], after[j..]), Lcs(before[i..], after[j + 1..]))
  {
    if i < |before| && j < |after| {
      assert before[i..][1..] == before[i + 1..] && after[j..][1..] == after[j + 1..];
    }
  }

  /** A row of the table holds the longest common subsequence lengths of the suffixes. */
  ghost predicate RowFilled(lcs: seq<nat>, before: seq<Line>, after: seq<Line>, i: nat)
    requires i <= |before|
  {
    var width := |after| + 1;
    forall j {:trigger Cell(width, i, j)} | 0 <= j < width ::
      Cell(width, i, j) < |lcs| && lcs[Cell(width, i, j)] == Lcs(before[i..], after[j..])
  }

  ghost predicate Filled(lcs: seq<nat>, before: seq<Line>, after: seq<Line>, row: nat) {
    forall i: nat | row <= i <= |before| :: RowFilled(lcs, before, after, i)
  }

  method FillRow(lcs: array<nat>, before: seq<Line>, after: seq<Line>, row: nat)
    requires lcs.Length == (|before| + 1) * (|after| + 1) && row < |before|
    requires Filled(lcs[..], before, after, row + 1)
    requires forall k | 0 <= k < Cell(|after| + 1, row + 1, 0) && k < lcs.Length :: lcs[k] == 0
    modifies lcs
    ensures Filled(lcs[..], before, after, row)
    ensures forall k | 0 <= k < Cell(|after| + 1, row, 0) && k < lcs.Length :: lcs[k] == 0
  {
    hide Lcs, Cell;
    var width := |after| + 1;
    CellInside(width, |before| + 1, row, |after|);
    CellsOfRow(width, row);
    CellsOfRow(width, row + 1);
    SuffixStep(before, after, row, |after|);
    assert RowFilled(lcs[..], before, after, row + 1);
    ghost var was := lcs[..];
    var j: nat := |after|;
    while j > 0
      invariant j <= |after|
      invariant forall k | Cell(width, row + 1, 0) <= k < lcs.Length :: lcs[k] == was[k]
      invariant RowFilled(lcs[..], before, after, row + 1)
      invariant forall k | j <= k <= |after| :: lcs[Cell(width, row, k)] == Lcs(before[row..], after[k..])
      invariant forall k | 0 <= k < Cell(width, row, 0) + j :: lcs[k] == 0
    {
      j := j - 1;
      SuffixStep(before, after, row, j);
      lcs[Cell(width, row, j)] :=
        if before[row] == after[j] then lcs[Cell(width, row + 1, j + 1)] + 1
        else Max(lcs[Cell(width, row + 1, j)], lcs[Cell(width, row, j + 1)]);
    }
    StillFilled(was, lcs[..], before, after, row);
  }

  /** Filling a row leaves the rows after it alone. */
  lemma StillFilled(was: seq<nat>, lcs: seq<nat>, before: seq<Line>, after: seq<Line>, row: nat)
    requires row < |before| && Filled(was, before, after, row + 1) && RowFilled(lcs, before, after, row)
    requires |lcs| == |was| == (|before| + 1) * (|after| + 1)
    requires forall k | Cell(|after| + 1, row + 1, 0) <= k < |lcs| :: lcs[k] == was[k]
    ensures Filled(lcs, before, after, row)
  {
    hide Lcs, Cell;
    var width := |after| + 1;
    CellInside(width, |before| + 1, row, 0);
    LaterRows(width, row);
    forall i: nat | row + 1 <= i <= |before| ensures RowFilled(lcs, before, after, i) {
      assert RowFilled(was, before, after, i);
    }
  }

  lemma CellsOfRow(width: nat, row: nat)
    ensures forall j {:trigger Cell(width, row, j)} | 0 <= j :: Cell(width, row, j) == Cell(width, row, 0) + j
  {
  }

  /** The last row of a table of zeros is filled. */
  lemma LastRow(lcs: seq<nat>, before: seq<Line>, after: seq<Line>)
    requires |lcs| == (|before| + 1) * (|after| + 1) && forall k | 0 <= k < |lcs| :: lcs[k] == 0
    ensures Filled(lcs, before, after, |before|)
  {
    hide Lcs;
    var width, i := |after| + 1, |before|;
    forall j | 0 <= j <= |after| ensures Cell(width, i, j) < |lcs| && Lcs(before[i..], after[j..]) == 0 {
      CellInside(width, |before| + 1, i, j);
      SuffixStep(before, after, i, j);
    }
    assert RowFilled(lcs, before, after, i);
  }

  method FillTable(before: seq<Line>, after: seq<Line>) returns (lcs: array<nat>)
    ensures fresh(lcs) && Filled(lcs[..], before, after, 0)
  {
    hide Lcs, Cell, RowFilled, Filled;
    var width := |after| + 1;
    lcs := new nat[(|before| + 1) * width](_ => 0);
    var i: nat := |before|;
    LastRow(lcs[..], before, after);
    while i > 0
      invariant i <= |before| && Filled(lcs[..], before, after, i)
      invariant forall k | 0 <= k < Cell(width, i, 0) && k < lcs.Length :: lcs[k] == 0
    {
      i := i - 1;
      FillRow(lcs, before, after, i);
    }
  }

  // The walk through it.

  /** Which of two diffs is preferred at a place where they differ: a kept line, then a removal, then an addition. */
  function Choice(d: DiffLine): nat {
    match d
    case Context(_) => 0
    case Minus(_) => 1
    case Plus(_) => 2
  }

  /** Where the two diffs first part, this one has the preferred line. */
  predicate Preferred(diff: seq<DiffLine>, other: seq<DiffLine>)
    decreases diff
  {
    diff != [] && other != []
    && (Choice(diff[0]) < Choice(other[0]) || (diff[0] == other[0] && Preferred(diff[1..], other[1..])))
  }

  /** The diff that the walk takes from here on. */
  function Greedy(before: seq<Line>, after: seq<Line>): seq<DiffLine>
    decreases |before| + |after|
  {
    if before == [] && after == [] then []
    else if before != [] && after != [] && before[0] == after[0]
    then [Context(before[0])] + Greedy(before[1..], after[1..])
    else if before != [] && (after == [] || Lcs(before[1..], after) >= Lcs(before, after[1..]))
    then [Minus(before[0])] + Greedy(before[1..], after)
    else [Plus(after[0])] + Greedy(before, after[1..])
  }

  lemma GreedyStep(before: seq<Line>, after: seq<Line>, i: nat, j: nat)
    requires i <= |before| && j <= |after| && (i < |before| || j < |after|)
    ensures Greedy(before[i..], after[j..]) ==
      if i < |before| && j < |after| && before[i] == after[j]
      then [Context(before[i])] + Greedy(before[i + 1..], after[j + 1..])
      else if i < |before| && (j == |after| || Lcs(before[i + 1..], after[j..]) >= Lcs(before[i..], after[j + 1..]))
      then [Minus(before[i])] + Greedy(before[i + 1..], after[j..])
      else [Plus(after[j])] + Greedy(before[i..], after[j + 1..])
  {
    hide Lcs;
    assert i < |before| ==> before[i..][1..] == before[i + 1..];
    assert j < |after| ==> after[j..][1..] == after[j + 1..];
  }

  lemma KeepsAtMost(diff: seq<DiffLine>, before: seq<Line>, after: seq<Line>)
    requires Rewrites(diff, before, after)
    ensures |Kept(diff)| <= Lcs(before, after)
  {
    KeptIsCommon(diff);
    LcsIsUpperBound(before, after, Kept(diff));
  }

  lemma FirstOf(diff: seq<DiffLine>, before: seq<Line>, after: seq<Line>)
    requires Rewrites(diff, before, after) && diff != []
    ensures match diff[0]
      case Context(line) =>
        && before != [] && after != [] && before[0] == after[0] == line
        && Rewrites(diff[1..], before[1..], after[1..]) && |Kept(diff)| == |Kept(diff[1..])| + 1
      case Minus(line) =>
        && before != [] && before[0] == line
        && Rewrites(diff[1..], before[1..], after) && |Kept(diff)| == |Kept(diff[1..])|
      case Plus(line) =>
        && after != [] && after[0] == line
        && Rewrites(diff[1..], before, after[1..]) && |Kept(diff)| == |Kept(diff[1..])|
  {
    hide Rewrites;
    assert Rewrites(diff, before, after) <==> Before(diff) == before && After(diff) == after by {
      RewritesIs(diff, before, after);
    }
    match diff[0]
    case Context(line) => RewritesIs(diff[1..], before[1..], after[1..]);
    case Minus(line) => RewritesIs(diff[1..], before[1..], after);
    case Plus(line) => RewritesIs(diff[1..], before, after[1..]);
  }

  lemma RewritesIs(diff: seq<DiffLine>, before: seq<Line>, after: seq<Line>)
    ensures Rewrites(diff, before, after) <==> Before(diff) == before && After(diff) == after
  {
  }

  /** No other diff that keeps as many lines is preferred to the walk's. */
  lemma {:induction false} GreedyIsPreferred(before: seq<Line>, after: seq<Line>, other: seq<DiffLine>)
    requires Rewrites(other, before, after) && |Kept(other)| == Lcs(before, after)
    ensures other == Greedy(before, after) || Preferred(Greedy(before, after), other)
    decreases |before| + |after|
  {
    hide Rewrites, Kept, Subsequence;
    if other == [] {
      RewritesIs(other, before, after);
    } else {
      FirstOf(other, before, after);
      var rest, greedy := other[1..], Greedy(before, after);
      match other[0]
      case Context(_) =>
        GreedyIsPreferred(before[1..], after[1..], rest);
        assert greedy[1..] == Greedy(before[1..], after[1..]);
      case Minus(_) =>
        KeepsAtMost(rest, before[1..], after);
        if greedy[0].Minus? {
          GreedyIsPreferred(before[1..], after, rest);
          assert greedy[1..] == Greedy(before[1..], after);
        }
      case Plus(_) =>
        KeepsAtMost(rest, before, after[1..]);
        if greedy[0].Plus? {
          GreedyIsPreferred(before, after[1..], rest);
          assert greedy[1..] == Greedy(before, after[1..]);
        }
    }
  }

  lemma DiffSnoc(diff: seq<DiffLine>, next: DiffLine)
    ensures Before(diff + [next]) == Before(diff) + (if next.Plus? then [] else [next.line])
    ensures After(diff + [next]) == After(diff) + (if next.Minus? then [] else [next.line])
    ensures Kept(diff + [next]) == Kept(diff) + (if next.Context? then [next.line] else [])
  {
    DiffConcat(diff, [next]);
    assert [next][1..] == [];
  }

  lemma NoDiff()
    ensures Before([]) == [] && After([]) == [] && Kept([]) == []
  {
  }

  /** Whether the walk removes a line of the current text. */
  method Removes(lcs: array<nat>, before: seq<Line>, after: seq<Line>, i: nat, j: nat) returns (removes: bool)
    requires Filled(lcs[..], before, after, 0) && i <= |before| && j <= |after| && (i < |before| || j < |after|)
    ensures removes <==>
      i < |before| && (j == |after| || Lcs(before[i + 1..], after[j..]) >= Lcs(before[i..], after[j + 1..]))
  {
    var width := |after| + 1;
    if i == |before| {
      return false;
    }
    if j == |after| {
      return true;
    }
    assert RowFilled(lcs[..], before, after, i) && RowFilled(lcs[..], before, after, i + 1);
    var down, right := Cell(width, i + 1, j), Cell(width, i, j + 1);
    return lcs[down] >= lcs[right];
  }

  /** The diff says how `i` old lines become `j` new ones, keeps all lines it can, and goes on as the greedy one. */
  ghost predicate Walked(diff: seq<DiffLine>, before: seq<Line>, after: seq<Line>, i: nat, j: nat) {
    && i <= |before| && j <= |after|
    && Before(diff) == before[..i] && After(diff) == after[..j]
    && |Kept(diff)| + Lcs(before[i..], after[j..]) == Lcs(before, after)
    && diff + Greedy(before[i..], after[j..]) == Greedy(before, after)
  }

  lemma WalkKeeps(diff: seq<DiffLine>, before: seq<Line>, after: seq<Line>, i: nat, j: nat)
    requires Walked(diff, before, after, i, j) && i < |before| && j < |after| && before[i] == after[j]
    ensures Walked(diff + [Context(before[i])], before, after, i + 1, j + 1)
  {
    hide Lcs, Before, After, Kept, Greedy;
    SuffixStep(before, after, i, j);
    GreedyStep(before, after, i, j);
    DiffSnoc(diff, Context(before[i]));
    MoveOver(diff, Context(before[i]), Greedy(before[i + 1..], after[j + 1..]));
  }

  lemma WalkRemoves(diff: seq<DiffLine>, before: seq<Line>, after: seq<Line>, i: nat, j: nat)
    requires Walked(diff, before, after, i, j) && i < |before| && (j < |after| ==> before[i] != after[j])
    requires j == |after| || Lcs(before[i + 1..], after[j..]) >= Lcs(before[i..], after[j + 1..])
    ensures Walked(diff + [Minus(before[i])], before, after, i + 1, j)
  {
    hide Lcs, Before, After, Kept, Greedy;
    SuffixStep(before, after, i, j);
    SuffixStep(before, after, i + 1, j);
    GreedyStep(before, after, i, j);
    DiffSnoc(diff, Minus(before[i]));
    MoveOver(diff, Minus(before[i]), Greedy(before[i + 1..], after[j..]));
  }

  lemma WalkAdds(diff: seq<DiffLine>, before: seq<Line>, after: seq<Line>, i: nat, j: nat)
    requires Walked(diff, before, after, i, j) && j < |after| && (i < |before| ==> before[i] != after[j])
    requires i == |before| || Lcs(before[i + 1..], after[j..]) < Lcs(before[i..], after[j + 1..])
    ensures Walked(diff + [Plus(after[j])], before, after, i, j + 1)
  {
    hide Lcs, Before, After, Kept, Greedy;
    SuffixStep(before, after, i, j);
    SuffixStep(before, after, i, j + 1);
    GreedyStep(before, after, i, j);
    DiffSnoc(diff, Plus(after[j]));
    MoveOver(diff, Plus(after[j]), Greedy(before[i..], after[j + 1..]));
  }

  lemma WalkBegins(before: seq<Line>, after: seq<Line>)
    ensures Walked([], before, after, 0, 0)
  {
    hide Lcs, Greedy;
    NoDiff();
    assert before[0..] == before && after[0..] == after;
  }

  lemma WalkEnds(diff: seq<DiffLine>, before: seq<Line>, after: seq<Line>)
    requires Walked(diff, before, after, |before|, |after|)
    ensures Rewrites(diff, before, after) && |Kept(diff)| == Lcs(before, after) && diff == Greedy(before, after)
  {
    hide Lcs, Before, After, Kept, Greedy;
    var i, j := |before|, |after|;
    SuffixStep(before, after, i, j);
    NothingLeft();
    assert before[..i] == before && after[..j] == after && before[i..] == [] && after[j..] == [] && diff + [] == diff;
  }

  /** Greedily keeps equal lines and otherwise follows the larger table entry. */
  method Walk(lcs: array<nat>, before: seq<Line>, after: seq<Line>) returns (diff: seq<DiffLine>)
    requires Filled(lcs[..], before, after, 0)
    ensures Rewrites(diff, before, after) && |Kept(diff)| == Lcs(before, after) && diff == Greedy(before, after)
  {
    hide Lcs, Filled, Before, After, Kept, Greedy, Walked, Rewrites;
    var i: nat, j: nat := 0, 0;
    diff := [];
    WalkBegins(before, after);
    while i < |before| || j < |after|
      invariant i <= |before| && j <= |after| && Walked(diff, before, after, i, j)
      decreases |before| - i + |after| - j
    {
      var removes := Removes(lcs, before, after, i, j);
      if i < |before| && j < |after| && before[i] == after[j] {
        WalkKeeps(diff, before, after, i, j);
        diff := diff + [Context(before[i])];
        i, j := i + 1, j + 1;
      } else if removes {
        WalkRemoves(diff, before, after, i, j);
        diff := diff + [Minus(before[i])];
        i := i + 1;
      } else {
        WalkAdds(diff, before, after, i, j);
        diff := diff + [Plus(after[j])];
        j := j + 1;
      }
    }
    WalkEnds(diff, before, after);
  }

  lemma MoveOver<T>(a: seq<T>, x: T, rest: seq<T>)
    ensures a + ([x] + rest) == a + [x] + rest
  {
  }

  lemma NothingLeft()
    ensures Greedy([], []) == []
  {
  }

  // The whole diff.

  datatype Preview =
    | Unchanged
    | TooLarge(bytesBefore: nat, bytesAfter: nat)
    | LineByLine(diff: seq<DiffLine>, endingNotice: bool)

  /** A preview says what happens to every line, keeps as many as possible, is as short as possible, and of the shortest
      is the one that keeps a line rather than remove it and removes one rather than add one, wherever they first part. */
  ghost predicate Describes(preview: Preview, original: string, updated: string) {
    var before, after := LogicalLines(original), LogicalLines(updated);
    match preview
    case Unchanged => original == updated
    case TooLarge(bytesBefore, bytesAfter) =>
      && original != updated && (|before| + 1) * (|after| + 1) > 1_000_000
      && bytesBefore == |original| && bytesAfter == |updated|
    case LineByLine(diff, endingNotice) =>
      && original != updated && (|before| + 1) * (|after| + 1) <= 1_000_000
      && Rewrites(diff, before, after)
      && (forall other | Rewrites(other, before, after) ::
            && |Kept(other)| <= |Kept(diff)| && |diff| <= |other|
            && (|other| == |diff| ==> other == diff || Preferred(diff, other)))
      && (endingNotice <==> before == after)
  }

  method UnifiedDiff(original: string, updated: string) returns (preview: Preview)
    ensures Describes(preview, original, updated)
  {
    hide Lcs, LogicalLines, Filled, Greedy, Preferred;
    if original == updated {
      return Unchanged;
    }
    var before, after := LogicalLines(original), LogicalLines(updated);
    if (|before| + 1) * (|after| + 1) > MAX_LCS_CELLS {
      return TooLarge(|original|, |updated|);
    }
    var lcs := FillTable(before, after);
    var diff := Walk(lcs, before, after);
    forall other | Rewrites(other, before, after)
      ensures |Kept(other)| <= |Kept(diff)| && |diff| <= |other|
      ensures |other| == |diff| ==> other == diff || Preferred(diff, other)
    {
      NoShorterDiff(diff, other, before, after);
      if |other| == |diff| {
        DiffLength(diff);
        DiffLength(other);
        GreedyIsPreferred(before, after, other);
      }
    }
    return LineByLine(diff, before == after);
  }

  // The notice about the end of the file.

  /** The text with one carriage return dropped before each newline and at the end, and a newline after the last line. */
  function Canon(source: string): string {
    if source == [] then []
    else if source[0] == CR && (|source| == 1 || source[1] == LF) then
      [LF] + (if |source| == 1 then [] else Canon(source[2..]))
    else if |source| == 1 && source[0] != LF then source + [LF]
    else [source[0]] + Canon(source[1..])
  }

  /** The lines with a newline after each. */
  function Terminated(lines: seq<Line>): string {
    if lines == [] then [] else lines[0] + [LF] + Terminated(lines[1..])
  }

  predicate EndsOpen(source: string) {
    source != [] && source[|source| - 1] != LF
  }

  lemma {:induction false} CanonLine(line: string, rest: string)
    requires LF !in line
    ensures Canon(line + [LF] + rest) == StripCr(line) + [LF] + Canon(rest)
    ensures line != [] ==> Canon(line) == StripCr(line) + [LF]
  {
    var all := line + [LF] + rest;
    if line == [] || line == [CR] {
      assert all[|line| + 1..] == rest;
    } else {
      assert all[1..] == line[1..] + [LF] + rest;
      CanonLine(line[1..], rest);
      if |line| > 1 {
        assert StripCr(line) == [line[0]] + StripCr(line[1..]);
      }
    }
  }

  lemma LogicalCons(source: string) returns (line: string, rest: string)
    requires source != []
    ensures LF !in line && |rest| < |source| && LogicalLines(source) == [StripCr(line)] + LogicalLines(rest)
    ensures source == line + [LF] + rest || (source == line && rest == [])
  {
    var end := LineLength(source);
    line, rest := source[..end], source[Min(end + 1, |source|)..];
    assert end < |source| ==> source == line + [LF] + rest;
  }

  /** The lines of a text tell its canonical form. */
  lemma {:induction false} LinesTell(source: string)
    ensures Terminated(LogicalLines(source)) == Canon(source)
    ensures forall i | 0 <= i < |LogicalLines(source)| :: LF !in LogicalLines(source)[i]
    decreases |source|
  {
    hide StripCr, Canon, LogicalLines, Terminated;
    if source == [] {
      CanonNothing();
    } else {
      var line, rest := LogicalCons(source);
      LinesTell(rest);
      StripCrShortens(line);
      CanonLine(line, rest);
      TerminatedCons(StripCr(line), LogicalLines(rest));
      CanonNothing();
      if source == line {
        assert rest == [];
      }
    }
  }

  lemma TerminatedCons(line: Line, rest: seq<Line>)
    ensures Terminated([line] + rest) == line + [LF] + Terminated(rest)
  {
    assert ([line] + rest)[1..] == rest;
  }

  lemma CanonNothing()
    ensures Canon([]) == [] && LogicalLines([]) == [] && Terminated([]) == []
  {
  }

  lemma StripCrShortens(line: string)
    ensures StripCr(line) <= line
  {
  }

  lemma {:induction false} TerminatedInjective(a: seq<Line>, b: seq<Line>)
    requires (forall i | 0 <= i < |a| :: LF !in a[i]) && forall i | 0 <= i < |b| :: LF !in b[i]
    requires Terminated(a) == Terminated(b)
    ensures a == b
  {
    if a != [] && b != [] {
      LineLengthOf(a[0], Terminated(a[1..]));
      LineLengthOf(b[0], Terminated(b[1..]));
      var whole, end := Terminated(a), |a[0]|;
      assert whole[..end] == a[0] == b[0] && whole[end + 1..] == Terminated(a[1..]) == Terminated(b[1..]);
      TerminatedInjective(a[1..], b[1..]);
    }
  }

  /** The notice appears exactly between texts that differ only in carriage returns at line ends and in the final
      newline. */
  lemma EndingNoticeIff(original: string, updated: string)
    ensures LogicalLines(original) == LogicalLines(updated) <==> Canon(original) == Canon(updated)
  {
    LinesTell(original);
    LinesTell(updated);
    if Canon(original) == Canon(updated) {
      TerminatedInjective(LogicalLines(original), LogicalLines(updated));
    }
  }

  lemma {:induction false} CanonPlain(source: string)
    requires CR !in source
    ensures Canon(source) == if EndsOpen(source) then source + [LF] else source
  {
    if |source| > 1 {
      CanonPlain(source[1..]);
    }
  }

  /** Between different texts without carriage returns it appears exactly when only the final newline differs. */
  lemma PlainNoticeIff(original: string, updated: string)
    requires CR !in original && CR !in updated && original != updated
    ensures LogicalLines(original) == LogicalLines(updated) <==>
      (EndsOpen(original) && updated == original + [LF]) || (EndsOpen(updated) && original == updated + [LF])
  {
    hide LogicalLines;
    EndingNoticeIff(original, updated);
    CanonPlain(original);
    CanonPlain(updated);
    assert (original + [LF])[..|original|] == original && (updated + [LF])[..|updated|] == updated;
  }
}
