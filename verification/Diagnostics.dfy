/** Finding lines in a source text, and grouping error ranges whose displayed lines overlap. */
module Diagnostics {
  // ---------- The line table ----------

  /** A line and the index it starts at. */
  datatype Line = Line(start: nat, text: string)

  /** The first line break from `i` on, or the end of the text. */
  function NextBreak(str: string, i: nat): (j: nat)
    requires i <= |str|
    ensures i <= j <= |str| && (j < |str| ==> str[j] == '\n') && forall k | i <= k < j :: str[k] != '\n'
    decreases |str| - i
  {
    if i == |str| || str[i] == '\n' then i else NextBreak(str, i + 1)
  }

  function LinesFrom(str: string, start: nat): seq<Line>
    requires start <= |str|
    decreases |str| - start
  {
    if start == |str| then []
    else
      var end := NextBreak(str, start);
      [Line(start, str[start..end])] + (if end == |str| then [] else LinesFrom(str, end + 1))
  }

  method GetDiagnosticData(str: string) returns (lines: seq<Line>)
    ensures lines == LinesFrom(str, 0)
  {
    lines := [];
    var start: nat := 0;
    ghost var all := LinesFrom(str, 0);
    while start < |str|
      invariant start <= |str| && all == lines + LinesFrom(str, start)
    {
      var line, next := CutLine(str, start);
      Append(lines, line, LinesFrom(str, next));
      lines, start := lines + [line], next;
    }
  }

  /** Cut one line; the next one starts behind its break, if it has one. */
  method CutLine(str: string, start: nat) returns (line: Line, next: nat)
    requires start < |str|
    ensures start < next <= |str| && LinesFrom(str, start) == [line] + LinesFrom(str, next)
  {
    var end := start;
    while end < |str| && str[end] != '\n'
      invariant start <= end <= |str| && NextBreak(str, end) == NextBreak(str, start)
    {
      end := end + 1;
    }
    line := Line(start, str[start..end]);
    next := if end == |str| then end else end + 1;
  }

  lemma Append(a: seq<Line>, l: Line, b: seq<Line>)
    ensures a + ([l] + b) == (a + [l]) + b
  {
  }

  /** The index after a line's last character. */
  function EndOf(l: Line): nat { l.start + |l.text| }

  /** The line holds what the text has there, without a break. */
  predicate IsLine(str: string, l: Line)
  {
    l.start < |str| && EndOf(l) <= |str| && str[l.start..EndOf(l)] == l.text && '\n' !in l.text
  }

  /** A line break separates the two lines. */
  predicate Adjacent(str: string, a: Line, b: Line)
  {
    EndOf(a) < |str| && str[EndOf(a)] == '\n' && b.start == EndOf(a) + 1
  }

  /** The line is the last one; a break at the very end starts no other. */
  predicate IsLast(str: string, l: Line)
  {
    EndOf(l) == |str| || (EndOf(l) == |str| - 1 && str[EndOf(l)] == '\n')
  }

  /** The lines cut `str`, from `start` on, at its line breaks. */
  predicate Table(str: string, start: nat, lines: seq<Line>)
  {
    && start <= |str| && (lines == [] <==> start == |str|)
    && (lines != [] ==> lines[0].start == start && IsLast(str, lines[|lines| - 1]))
    && (forall i | 0 <= i < |lines| :: IsLine(str, lines[i]))
    && (forall i, j | 0 <= i && j == i + 1 < |lines| :: Adjacent(str, lines[i], lines[j]))
  }

  lemma TableCons(str: string, l: Line, rest: seq<Line>, lines: seq<Line>)
    requires IsLine(str, l) && EndOf(l) < |str| && str[EndOf(l)] == '\n'
    requires Table(str, EndOf(l) + 1, rest) && lines == [l] + rest
    ensures Table(str, l.start, lines)
  {
    forall i | 0 <= i < |lines| ensures IsLine(str, lines[i]) {
      assert lines[i] == if i == 0 then l else rest[i - 1];
    }
    forall i, j | 0 <= i && j == i + 1 < |lines| ensures Adjacent(str, lines[i], lines[j]) {
      assert lines[j] == rest[i];
      if i > 0 {
        assert Adjacent(str, rest[i - 1], rest[i]);
      }
    }
    assert lines[|lines| - 1] == if rest == [] then l else rest[|rest| - 1];
  }

  lemma TableTail(str: string, start: nat, lines: seq<Line>)
    requires Table(str, start, lines) && lines != []
    ensures var end := EndOf(lines[0]);
            && IsLine(str, lines[0]) && (end < |str| ==> str[end] == '\n')
            && (if end < |str| then Table(str, end + 1, lines[1..]) else |lines| == 1)
  {
    var rest, end := lines[1..], EndOf(lines[0]);
    if rest != [] {
      assert Adjacent(str, lines[0], lines[1]);
    }
    if end < |str| {
      forall i | 0 <= i < |rest| ensures IsLine(str, rest[i]) {
        assert rest[i] == lines[i + 1];
      }
      forall i, j | 0 <= i && j == i + 1 < |rest| ensures Adjacent(str, rest[i], rest[j]) {
        assert Adjacent(str, lines[i + 1], lines[j + 1]);
      }
      assert rest != [] ==> EndOf(rest[0]) <= |str| && rest[|rest| - 1] == lines[|lines| - 1];
      assert rest == [] ==> IsLast(str, lines[0]);
      assert rest != [] ==> rest[0].start < |str|;
    }
  }

  lemma {:induction false} LinesAreTable(str: string, start: nat)
    requires start <= |str|
    ensures Table(str, start, LinesFrom(str, start))
    decreases |str| - start
  {
    if start < |str| {
      var end := NextBreak(str, start);
      if end < |str| {
        LinesAreTable(str, end + 1);
        TableCons(str, Line(start, str[start..end]), LinesFrom(str, end + 1), LinesFrom(str, start));
      }
    }
  }

  /** There is only one such table. */
  lemma {:induction false} TableIsUnique(str: string, start: nat, lines: seq<Line>)
    requires Table(str, start, lines)
    ensures lines == LinesFrom(str, start)
    decreases |lines|
  {
    if lines != [] {
      var l := lines[0];
      TableTail(str, start, lines);
      BreakAt(str, start, EndOf(l));
      assert lines == [l] + lines[1..] && l == Line(start, str[start..EndOf(l)]);
      if EndOf(l) < |str| {
        TableIsUnique(str, EndOf(l) + 1, lines[1..]);
      }
    }
  }

  lemma {:induction false} BreakAt(str: string, start: nat, end: nat)
    requires start <= end <= |str| && '\n' !in str[start..end] && (end < |str| ==> str[end] == '\n')
    ensures NextBreak(str, start) == end
    decreases end - start
  {
    if start < end {
      assert str[start..end][0] == str[start] && str[start..end][1..] == str[start + 1..end];
      BreakAt(str, start + 1, end);
    }
  }

  function Join(lines: seq<Line>): string
  {
    if lines == [] then "" else if |lines| == 1 then lines[0].text else lines[0].text + "\n" + Join(lines[1..])
  }

  function FinalBreak(str: string, start: nat): string
  {
    if start < |str| && str[|str| - 1] == '\n' then "\n" else ""
  }

  /** Nothing is lost but a line break at the very end. */
  lemma {:induction false} SplitIsLossless(str: string, start: nat, lines: seq<Line>)
    requires Table(str, start, lines)
    ensures Join(lines) + FinalBreak(str, start) == str[start..]
    decreases |lines|
  {
    if lines != [] {
      TableTail(str, start, lines);
      var end := EndOf(lines[0]);
      if end < |str| {
        SplitIsLossless(str, end + 1, lines[1..]);
        JoinStep(str, start, end, lines);
      } else {
        JoinLast(str, start, lines);
      }
    }
  }

  lemma JoinLast(str: string, start: nat, lines: seq<Line>)
    requires start < |str| && lines == [Line(start, str[start..|str|])] && '\n' !in lines[0].text
    ensures Join(lines) + FinalBreak(str, start) == str[start..]
  {
    assert str[start..|str|] == str[start..] && str[|str| - 1] == lines[0].text[|str| - 1 - start];
    assert FinalBreak(str, start) == "";
  }

  lemma JoinStep(str: string, start: nat, end: nat, lines: seq<Line>)
    requires start <= end < |str| && str[end] == '\n' && lines != [] && lines[0] == Line(start, str[start..end])
    requires lines[1..] == [] <==> end + 1 == |str|
    requires Join(lines[1..]) + FinalBreak(str, end + 1) == str[end + 1..]
    ensures Join(lines) + FinalBreak(str, start) == str[start..]
  {
    var text, rest := str[start..end], lines[1..];
    assert str[start..] == text + ("\n" + str[end + 1..]);
    if rest != [] {
      Regroup(text, "\n", Join(rest), FinalBreak(str, end + 1));
    } else {
      assert str[end + 1..] == "" && "\n" + "" == "\n";
    }
  }

  lemma Regroup(a: string, b: string, c: string, d: string)
    ensures (a + b + c) + d == a + (b + (c + d))
  {
  }

  // ---------- Finding a line ----------

  predicate Increasing(lines: seq<Line>)
  {
    forall i, j | 0 <= i < j < |lines| :: lines[i].start < lines[j].start
  }

  lemma {:induction false} TableIncreases(str: string, start: nat, lines: seq<Line>, i: nat, j: nat)
    requires Table(str, start, lines) && i < j < |lines|
    ensures EndOf(lines[i]) < lines[j].start
    decreases j - i
  {
    if i < j - 1 {
      TableIncreases(str, start, lines, i, j - 1);
    }
  }

  /** The number of the first line that starts after the index, from 0. */
  function UpperBound(lines: seq<Line>, index: int): (n: nat)
    ensures n <= |lines| && (n < |lines| ==> lines[n].start > index)
    ensures forall i | 0 <= i < n :: lines[i].start <= index
  {
    if lines == [] || lines[0].start > index then 0 else 1 + UpperBound(lines[1..], index)
  }

  /** The number of an index's line, from 1; indices before the first line count as in it. */
  function LineNumber(lines: seq<Line>, index: int): nat
  {
    if UpperBound(lines, index) > 1 then UpperBound(lines, index) else 1
  }

  /** Binary search. */
  method SourceIndexToLine(lines: seq<Line>, index: int) returns (line: nat)
    requires Increasing(lines)
    ensures line == LineNumber(lines, index)
  {
    var first: nat, count: nat := 0, |lines|;
    while count > 0
      invariant first + count <= |lines|
      invariant forall i | 0 <= i < first :: lines[i].start <= index
      invariant forall i | first + count <= i < |lines| :: lines[i].start > index
    {
      var step := count / 2;
      if lines[first + step].start <= index {
        first, count := first + step + 1, count - step - 1;
      } else {
        count := step;
      }
    }
    ghost var n := UpperBound(lines, index);
    assert n < |lines| ==> lines[n].start > index;
    assert first < |lines| ==> lines[first].start > index;
    line := if first > 1 then first else 1;
  }

  /** Every character belongs to exactly one line, counting a line's break to the line, and that is the one
      that is found. */
  lemma LineContainsIff(str: string, index: nat, k: nat)
    requires index < |str| && k < |LinesFrom(str, 0)|
    ensures var l := LinesFrom(str, 0)[k];
            k == LineNumber(LinesFrom(str, 0), index) - 1 <==> l.start <= index <= EndOf(l)
  {
    var lines := LinesFrom(str, 0);
    LinesAreTable(str, 0);
    var n := UpperBound(lines, index);
    assert n > 0;
    if n < |lines| {
      assert lines[n].start == EndOf(lines[n - 1]) + 1;
    }
    if k < n - 1 {
      TableIncreases(str, 0, lines, k, n - 1);
    } else if k > n {
      TableIncreases(str, 0, lines, n, k);
    }
  }

  lemma LineNumberMonotone(lines: seq<Line>, i: int, j: int)
    requires Increasing(lines) && i <= j
    ensures LineNumber(lines, i) <= LineNumber(lines, j)
  {
    var m, n := UpperBound(lines, i), UpperBound(lines, j);
    assert n < |lines| ==> lines[n].start > j;
  }

  // ---------- Shown lines ----------

  /** A range of source indices. */
  datatype Range = Range(start: int, end: int)

  /** The lines displayed for a range, first and last. */
  datatype Shown = Shown(first: int, last: int)

  function FirstLine(lines: seq<Line>, r: Range): int { LineNumber(lines, r.start) - 1 }

  /** The lines of a range, and `radius` more on both sides as far as there are any. */
  function ShownLines(lines: seq<Line>, r: Range, radius: nat): Shown
  {
    var first, last := FirstLine(lines, r), LineNumber(lines, r.end) - 1;
    Shown(if first > radius then first - radius else 0,
          if last + radius <= |lines| - 1 then last + radius else |lines| - 1)
  }

  function AllShown(lines: seq<Line>, groups: seq<Range>, radius: nat): seq<Shown>
  {
    seq(|groups|, i requires 0 <= i < |groups| => ShownLines(lines, groups[i], radius))
  }

  lemma ShownInOrder(lines: seq<Line>, r: Range, radius: nat)
    requires Increasing(lines) && lines != [] && r.start <= r.end
    ensures var s := ShownLines(lines, r, radius); 0 <= s.first <= s.last < |lines|
  {
    LineNumberMonotone(lines, r.start, r.end);
  }

  // ---------- Clusters ----------

  datatype Cluster = Cluster(members: seq<nat>, first: int, last: int)

  /** Every group once. */
  predicate Permutation(order: seq<nat>, n: nat)
  {
    && |order| == n
    && (forall k | 0 <= k < |order| :: order[k] < n)
    && (forall j, k | 0 <= j < k < |order| :: order[j] != order[k])
  }

  /** The groups in the order of the lines they start on. */
  predicate SortedOrder(lines: seq<Line>, groups: seq<Range>, order: seq<nat>)
  {
    && Permutation(order, |groups|)
    && forall j, k | 0 <= j < k < |order| :: FirstLine(lines, groups[order[j]]) <= FirstLine(lines, groups[order[k]])
  }

  function Flatten(clusters: seq<Cluster>): seq<nat>
  {
    if clusters == [] then [] else Flatten(clusters[..|clusters| - 1]) + clusters[|clusters| - 1].members
  }

  /** The last line shown for any of the members. */
  function LastShown(shown: seq<Shown>, members: seq<nat>): int
    requires members != [] && forall k | 0 <= k < |members| :: members[k] < |shown|
  {
    var init, last := members[..|members| - 1], shown[members[|members| - 1]].last;
    if init == [] then last
    else if LastShown(shown, init) < last then last else LastShown(shown, init)
  }

  /** A cluster shows exactly from the first to the last line shown for a member. */
  predicate Hull(shown: seq<Shown>, c: Cluster)
  {
    && c.members != [] && (forall k | 0 <= k < |c.members| :: c.members[k] < |shown|)
    && c.first == shown[c.members[0]].first && c.last == LastShown(shown, c.members)
    && (forall k | 0 <= k < |c.members| :: c.first <= shown[c.members[k]].first)
  }

  /** Clusters are hulls of their members, one after the other without overlap. */
  predicate Clustered(shown: seq<Shown>, clusters: seq<Cluster>)
  {
    && (forall i | 0 <= i < |clusters| :: Hull(shown, clusters[i]))
    && (forall i, j | 0 <= i && j == i + 1 < |clusters| :: clusters[i].last < clusters[j].first)
  }

  /** The last line shown is shown for some member, and no member needs a later one. */
  lemma {:induction false} LastShownIsMax(shown: seq<Shown>, members: seq<nat>, k: nat)
    requires members != [] && (forall k | 0 <= k < |members| :: members[k] < |shown|) && k < |members|
    ensures shown[members[k]].last <= LastShown(shown, members)
    ensures exists j | 0 <= j < |members| :: shown[members[j]].last == LastShown(shown, members)
    decreases |members|
  {
    var init := members[..|members| - 1];
    if init == [] {
      assert shown[members[0]].last == LastShown(shown, members);
    } else {
      LastShownIsMax(shown, init, if k < |init| then k else 0);
      var j :| 0 <= j < |init| && shown[init[j]].last == LastShown(shown, init);
      assert members[j] == init[j] && (k < |init| ==> members[k] == init[k]);
      assert LastShown(shown, members) == shown[members[j]].last
          || LastShown(shown, members) == shown[members[|members| - 1]].last;
    }
  }

  lemma HullMore(shown: seq<Shown>, c: Cluster, m: nat)
    requires Hull(shown, c) && m < |shown| && c.first <= shown[m].first
    ensures Hull(shown, Merge(c, m, shown[m]))
  {
    var members := c.members + [m];
    assert members[..|members| - 1] == c.members;
  }

  lemma FlattenMore(clusters: seq<Cluster>, c: Cluster)
    ensures Flatten(clusters + [c]) == Flatten(clusters) + c.members
  {
    assert (clusters + [c])[..|clusters|] == clusters;
  }

  /** The cluster with one more member. */
  function Merge(c: Cluster, m: nat, s: Shown): Cluster
  {
    Cluster(c.members + [m], c.first, if s.last > c.last then s.last else c.last)
  }

  lemma ClusteredMore(shown: seq<Shown>, init: seq<Cluster>, c: Cluster)
    requires Clustered(shown, init) && Hull(shown, c) && (init != [] ==> init[|init| - 1].last < c.first)
    ensures Clustered(shown, init + [c])
  {
  }

  lemma MergeLast(shown: seq<Shown>, clusters: seq<Cluster>, m: nat)
    requires Clustered(shown, clusters) && clusters != [] && m < |shown|
    requires clusters[|clusters| - 1].first <= shown[m].first
    ensures var more := clusters[..|clusters| - 1] + [Merge(clusters[|clusters| - 1], m, shown[m])];
            Clustered(shown, more) && Flatten(more) == Flatten(clusters) + [m]
  {
    var init, c := clusters[..|clusters| - 1], clusters[|clusters| - 1];
    HullMore(shown, c, m);
    FlattenMore(init, Merge(c, m, shown[m]));
    ClusteredMore(shown, init, Merge(c, m, shown[m]));
  }

  lemma StartCluster(shown: seq<Shown>, clusters: seq<Cluster>, m: nat)
    requires Clustered(shown, clusters) && m < |shown|
    requires clusters != [] ==> clusters[|clusters| - 1].last < shown[m].first
    ensures var more := clusters + [Cluster([m], shown[m].first, shown[m].last)];
            Clustered(shown, more) && Flatten(more) == Flatten(clusters) + [m]
  {
    var c := Cluster([m], shown[m].first, shown[m].last);
    FlattenMore(clusters, c);
    ClusteredMore(shown, clusters, c);
  }

  /** Merge groups, in order, whose shown lines overlap. */
  method ClusterShown(shown: seq<Shown>, order: seq<nat>) returns (clusters: seq<Cluster>)
    requires forall k | 0 <= k < |order| :: order[k] < |shown|
    requires forall j, k | 0 <= j && k == j + 1 < |order| :: shown[order[j]].first <= shown[order[k]].first
    ensures Flatten(clusters) == order && Clustered(shown, clusters)
  {
    clusters := [];
    for k := 0 to |order|
      invariant Flatten(clusters) == order[..k] && Clustered(shown, clusters)
      invariant k > 0 && clusters != [] ==> clusters[|clusters| - 1].first <= shown[order[k - 1]].first
      invariant k == 0 ==> clusters == []
    {
      assert order[..k + 1] == order[..k] + [order[k]];
      clusters := Place(shown, clusters, order[k]);
    }
    assert order[..|order|] == order;
  }

  method ClusterGroups(lines: seq<Line>, groups: seq<Range>, order: seq<nat>, radius: nat)
    returns (clusters: seq<Cluster>)
    requires SortedOrder(lines, groups, order)
    ensures Flatten(clusters) == order && Clustered(AllShown(lines, groups, radius), clusters)
  {
    clusters := ClusterShown(AllShown(lines, groups, radius), order);
  }

  /** The group joins the last cluster, or starts a new one. */
  method Place(shown: seq<Shown>, clusters: seq<Cluster>, m: nat) returns (more: seq<Cluster>)
    requires Clustered(shown, clusters) && m < |shown|
    requires clusters != [] ==> clusters[|clusters| - 1].first <= shown[m].first
    ensures Clustered(shown, more) && Flatten(more) == Flatten(clusters) + [m]
    ensures more != [] && more[|more| - 1].first <= shown[m].first
  {
    var n := |clusters|;
    if n > 0 && shown[m].first <= clusters[n - 1].last {
      MergeLast(shown, clusters, m);
      more := clusters[..n - 1] + [Merge(clusters[n - 1], m, shown[m])];
    } else {
      StartCluster(shown, clusters, m);
      more := clusters + [Cluster([m], shown[m].first, shown[m].last)];
    }
  }

  lemma {:induction false} Apart(shown: seq<Shown>, clusters: seq<Cluster>, i: nat, j: nat)
    requires Clustered(shown, clusters) && i < j < |clusters| && forall s | s in shown :: s.first <= s.last
    ensures clusters[i].last < clusters[j].first
    decreases j - i
  {
    if i < j - 1 {
      Apart(shown, clusters, i, j - 1);
      var c := clusters[j - 1];
      LastShownIsMax(shown, c.members, 0);
      assert shown[c.members[0]] in shown;
    }
  }

  lemma SharedLine(shown: seq<Shown>, clusters: seq<Cluster>, i: nat, j: nat, k: nat, l: nat, line: int)
    requires Clustered(shown, clusters) && forall s | s in shown :: s.first <= s.last
    requires i < |clusters| && j < |clusters| && k < |clusters[i].members| && l < |clusters[j].members|
    requires var m := clusters[i].members[k]; m < |shown| && shown[m].first <= line <= shown[m].last
    requires var m := clusters[j].members[l]; m < |shown| && shown[m].first <= line <= shown[m].last
    ensures i == j && clusters[i].first <= line <= clusters[i].last
  {
    LastShownIsMax(shown, clusters[i].members, k);
    LastShownIsMax(shown, clusters[j].members, l);
    if i < j {
      Apart(shown, clusters, i, j);
    } else if j < i {
      Apart(shown, clusters, j, i);
    }
  }

  lemma AllShownInOrder(lines: seq<Line>, groups: seq<Range>, radius: nat)
    requires Increasing(lines) && lines != [] && forall g | g in groups :: g.start <= g.end
    ensures forall s | s in AllShown(lines, groups, radius) :: s.first <= s.last
  {
    forall g | 0 <= g < |groups| ensures ShownLines(lines, groups[g], radius).first <= ShownLines(lines, groups[g], radius).last {
      assert groups[g] in groups;
      ShownInOrder(lines, groups[g], radius);
    }
  }

  /** For well-formed ranges, two groups of which some line is shown for both are in the same cluster, and that
      cluster shows the line. */
  lemma OverlapSharesCluster(lines: seq<Line>, groups: seq<Range>, radius: nat, clusters: seq<Cluster>,
                             i: nat, j: nat, k: nat, l: nat, line: int)
    requires Increasing(lines) && lines != [] && (forall g | g in groups :: g.start <= g.end)
    requires Clustered(AllShown(lines, groups, radius), clusters)
    requires i < |clusters| && j < |clusters| && k < |clusters[i].members| && l < |clusters[j].members|
    requires clusters[i].members[k] < |groups| && clusters[j].members[l] < |groups|
    requires var s := ShownLines(lines, groups[clusters[i].members[k]], radius); s.first <= line <= s.last
    requires var s := ShownLines(lines, groups[clusters[j].members[l]], radius); s.first <= line <= s.last
    ensures i == j && clusters[i].first <= line <= clusters[i].last
  {
    AllShownInOrder(lines, groups, radius);
    SharedLine(AllShown(lines, groups, radius), clusters, i, j, k, l, line);
  }
}
