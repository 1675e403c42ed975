/**
 * The NUMA distance topology of the kubelet topology manager: built once from a
 * distance source, then read by the hint provider to score candidate node sets.
 */
module NumaTopology {
  import opened Wrappers
  import opened Errors
  import opened DistanceLine
  import opened Fakesysfs

  /** A NUMA node as reported by cAdvisor; only its id is read here. */
  datatype Node = Node(id: int)

  /** The ids of `nodes`, in order. */
  function Ids(nodes: seq<Node>): (ids: seq<int>)
    ensures |ids| == |nodes|
  {
    seq(|nodes|, k requires 0 <= k < |nodes| => nodes[k].id)
  }

  /**
   * The node ids in construction order and the distance rows, indexed by node id.
   * `Topology([], [])` is Go's zero value `Topology{}`.
   */
  datatype Topology = Topology(numaNodes: seq<int>, distances: seq<seq<uint64>>) {

    function GetNumaNodes(): seq<int> {
      numaNodes
    }

    function NumaNodesCount(): (n: nat)
      ensures n == |GetNumaNodes()|
    {
      |numaNodes|
    }

    /**
     * The mean of `distances[i][j]` over every ordered pair `(i, j)` of set bits,
     * self-pairs included. A pure read of the topology.
     */
    method CalculateAvgDistanceFor(bits: seq<int>) returns (avg: real)
      requires |bits| > 0
      requires InRange(distances, bits, bits)
      ensures avg == AvgDistance(distances, bits)
    {
      var count := 0;
      var sum := 0;
      PairSumStep(distances, bits, bits, 0);
      for a := 0 to |bits|
        invariant sum == PairSumTo(distances, bits, bits, a)
        invariant count == a * |bits|
      {
        RowSumStep(distances, bits[a], bits, 0);
        for b := 0 to |bits|
          invariant sum == PairSumTo(distances, bits, bits, a) + RowSumTo(distances, bits[a], bits, b)
          invariant count == a * |bits| + b
        {
          RowSumStep(distances, bits[a], bits, b);
          sum := sum + distances[bits[a]][bits[b]] as int;
          count := count + 1;
        }
        PairSumStep(distances, bits, bits, a);
        MulStep(a + 1, |bits|);
      }
      avg := sum as real / count as real;
      PairSumStep(distances, bits, bits, |bits| - 1);
      MeanOfPairs(distances, bits, sum, count);
    }
  }

  /** A sum over all pairs of `bits`, divided by their count, is the score. */
  lemma MeanOfPairs(d: seq<seq<uint64>>, bits: seq<int>, sum: int, count: int)
    requires |bits| > 0 && InRange(d, bits, bits)
    requires sum == PairSum(d, bits, bits) && count == |bits| * |bits|
    ensures sum as real / count as real == AvgDistance(d, bits)
  {
  }

  /** Every id of `cols` is in range of row `i` of `d`. */
  predicate InRow(d: seq<seq<uint64>>, i: int, cols: seq<int>) {
    0 <= i < |d| && forall b :: 0 <= b < |cols| ==> 0 <= cols[b] < |d[i]|
  }

  /** Every id of `rows` names a row of `d`, long enough for every id of `cols`. */
  predicate InRange(d: seq<seq<uint64>>, rows: seq<int>, cols: seq<int>) {
    forall a :: 0 <= a < |rows| ==> InRow(d, rows[a], cols)
  }

  lemma PrefixInRow(d: seq<seq<uint64>>, i: int, cols: seq<int>, m: int)
    requires InRow(d, i, cols) && 0 <= m <= |cols|
    ensures InRow(d, i, cols[..m])
  {
    forall b | 0 <= b < m
      ensures 0 <= cols[..m][b] < |d[i]|
    {
      assert cols[..m][b] == cols[b];
    }
  }

  lemma PrefixInRange(d: seq<seq<uint64>>, rows: seq<int>, cols: seq<int>, n: int)
    requires InRange(d, rows, cols) && 0 <= n <= |rows|
    ensures InRange(d, rows[..n], cols)
  {
    forall a | 0 <= a < n
      ensures InRow(d, rows[..n][a], cols)
    {
      assert rows[..n][a] == rows[a];
    }
  }

  /** The row sum over the first `b` ids of `cols`. */
  function RowSumTo(d: seq<seq<uint64>>, i: int, cols: seq<int>, b: int): int
    requires InRow(d, i, cols) && 0 <= b <= |cols|
  {
    PrefixInRow(d, i, cols, b);
    RowSum(d, i, cols[..b])
  }

  /** The pair sum over the first `a` ids of `rows`. */
  function PairSumTo(d: seq<seq<uint64>>, rows: seq<int>, cols: seq<int>, a: int): int
    requires InRange(d, rows, cols) && 0 <= a <= |rows|
  {
    PrefixInRange(d, rows, cols, a);
    PairSum(d, rows[..a], cols)
  }

  /** Extending the columns by `cols[b]` adds exactly the entry `d[i][cols[b]]`; all of them give the row sum. */
  lemma RowSumStep(d: seq<seq<uint64>>, i: int, cols: seq<int>, b: int)
    requires InRow(d, i, cols) && 0 <= b < |cols|
    ensures RowSumTo(d, i, cols, 0) == 0
    ensures RowSumTo(d, i, cols, b + 1) == RowSumTo(d, i, cols, b) + d[i][cols[b]] as int
    ensures RowSumTo(d, i, cols, |cols|) == RowSum(d, i, cols)
  {
    PrefixInRow(d, i, cols, b);
    PrefixInRow(d, i, cols, b + 1);
    assert cols[..b + 1][..b] == cols[..b];
    assert cols[..b + 1][b] == cols[b];
    assert cols[..0] == [];
    assert cols[..|cols|] == cols;
  }

  /** Extending the rows by `rows[a]` adds exactly that row's sum; all of them give the pair sum. */
  lemma PairSumStep(d: seq<seq<uint64>>, rows: seq<int>, cols: seq<int>, a: int)
    requires InRange(d, rows, cols) && 0 <= a < |rows|
    ensures InRow(d, rows[a], cols)
    ensures PairSumTo(d, rows, cols, 0) == 0
    ensures PairSumTo(d, rows, cols, a + 1) == PairSumTo(d, rows, cols, a) + RowSum(d, rows[a], cols)
    ensures PairSumTo(d, rows, cols, |rows|) == PairSum(d, rows, cols)
  {
    PrefixInRange(d, rows, cols, a);
    PrefixInRange(d, rows, cols, a + 1);
    assert rows[..a + 1][..a] == rows[..a];
    assert rows[..a + 1][a] == rows[a];
    assert rows[..0] == [];
    assert rows[..|rows|] == rows;
  }

  /** `d[i][j]` summed over the ids `j` of `cols`. */
  function RowSum(d: seq<seq<uint64>>, i: int, cols: seq<int>): int
    requires InRow(d, i, cols)
  {
    if cols == [] then 0
    else
      PrefixInRow(d, i, cols, |cols| - 1);
      RowSum(d, i, cols[..|cols| - 1]) + d[i][cols[|cols| - 1]] as int
  }

  /** `d[i][j]` summed over every pair of an id `i` of `rows` and an id `j` of `cols`. */
  function PairSum(d: seq<seq<uint64>>, rows: seq<int>, cols: seq<int>): int
    requires InRange(d, rows, cols)
  {
    if rows == [] then 0
    else
      PrefixInRange(d, rows, cols, |rows| - 1);
      PairSum(d, rows[..|rows| - 1], cols) + RowSum(d, rows[|rows| - 1], cols)
  }

  /** The score of a non-empty node set: the pair sum over `bits` x `bits` divided by k². */
  function AvgDistance(d: seq<seq<uint64>>, bits: seq<int>): real
    requires |bits| > 0
    requires InRange(d, bits, bits)
  {
    PairSum(d, bits, bits) as real / (|bits| * |bits|) as real
  }

  /** Range conditions depend only on which ids occur, not on their order or position. */
  lemma InRowPerm(d: seq<seq<uint64>>, i: int, xs: seq<int>, ys: seq<int>)
    requires InRow(d, i, xs) && multiset(xs) == multiset(ys)
    ensures InRow(d, i, ys)
  {
    forall b | 0 <= b < |ys|
      ensures 0 <= ys[b] < |d[i]|
    {
      assert ys[b] in multiset(xs);
      var a :| 0 <= a < |xs| && xs[a] == ys[b];
    }
  }

  lemma InRangePerm(d: seq<seq<uint64>>, xs: seq<int>, ys: seq<int>)
    requires InRange(d, xs, xs) && multiset(xs) == multiset(ys)
    ensures InRange(d, ys, ys)
  {
    forall a | 0 <= a < |ys|
      ensures InRow(d, ys[a], ys)
    {
      assert ys[a] in multiset(xs);
      var k :| 0 <= k < |xs| && xs[k] == ys[a];
      InRowPerm(d, xs[k], xs, ys);
    }
  }

  /** The multiset of `s` is that of `s` without its element at `j`, plus that element. */
  lemma MultisetRemove(s: seq<int>, j: int)
    requires 0 <= j < |s|
    ensures multiset(s) == multiset(s[..j] + s[j + 1..]) + multiset{s[j]}
  {
    assert s == s[..j] + [s[j]] + s[j + 1..];
  }

  /** The last element of `xs` sits at some index `j` of a reordering `ys`; removing it from both keeps them reorderings. */
  lemma MatchLast(xs: seq<int>, ys: seq<int>) returns (j: int)
    requires xs != [] && multiset(xs) == multiset(ys)
    ensures 0 <= j < |ys| && ys[j] == xs[|xs| - 1]
    ensures multiset(xs[..|xs| - 1]) == multiset(ys[..j] + ys[j + 1..])
  {
    var n := |xs|;
    assert xs[n - 1] in multiset(ys);
    j :| 0 <= j < |ys| && ys[j] == xs[n - 1];
    var rest := ys[..j] + ys[j + 1..];
    MultisetRemove(ys, j);
    assert xs == xs[..n - 1] + [xs[n - 1]];
    assert multiset(xs) == multiset(xs[..n - 1]) + multiset{xs[n - 1]};
    assert multiset(xs[..n - 1]) + multiset{xs[n - 1]} == multiset(rest) + multiset{xs[n - 1]};
    forall e
      ensures multiset(xs[..n - 1])[e] == multiset(rest)[e]
    {
      assert (multiset(xs[..n - 1]) + multiset{xs[n - 1]})[e] == (multiset(rest) + multiset{xs[n - 1]})[e];
    }
  }

  lemma {:induction false} RowSumAppend(d: seq<seq<uint64>>, i: int, xs: seq<int>, ys: seq<int>)
    requires InRow(d, i, xs) && InRow(d, i, ys)
    ensures InRow(d, i, xs + ys)
    ensures RowSum(d, i, xs + ys) == RowSum(d, i, xs) + RowSum(d, i, ys)
  {
    var zs := xs + ys;
    assert InRow(d, i, zs) by {
      forall b | 0 <= b < |zs|
        ensures 0 <= zs[b] < |d[i]|
      {
        if b >= |xs| {
          assert zs[b] == ys[b - |xs|];
        }
      }
    }
    if ys != [] {
      PrefixInRow(d, i, ys, |ys| - 1);
      RowSumAppend(d, i, xs, ys[..|ys| - 1]);
      assert zs[..|zs| - 1] == xs + ys[..|ys| - 1];
    } else {
      assert zs == xs;
    }
  }

  /** Taking column `ys[j]` out of a row sum removes exactly its one entry. */
  lemma RowSumRemove(d: seq<seq<uint64>>, i: int, ys: seq<int>, j: int)
    requires InRow(d, i, ys) && 0 <= j < |ys|
    ensures InRow(d, i, ys[..j] + ys[j + 1..])
    ensures RowSum(d, i, ys) == RowSum(d, i, ys[..j] + ys[j + 1..]) + d[i][ys[j]] as int
  {
    var x, head, tail := ys[j], ys[..j], ys[j + 1..];
    assert ys == head + ([x] + tail);
    PrefixInRow(d, i, ys, j);
    assert InRow(d, i, tail) by {
      forall b | 0 <= b < |tail|
        ensures 0 <= tail[b] < |d[i]|
      {
        assert tail[b] == ys[j + 1 + b];
      }
    }
    assert InRow(d, i, [x]);
    assert RowSum(d, i, [x]) == d[i][x] as int by {
      assert [x][..0] == [];
    }
    RowSumAppend(d, i, [x], tail);
    RowSumAppend(d, i, head, [x] + tail);
    RowSumAppend(d, i, head, tail);
  }

  /** A row sum depends only on which columns occur, with their multiplicity. */
  lemma {:induction false} RowSumPerm(d: seq<seq<uint64>>, i: int, xs: seq<int>, ys: seq<int>)
    requires InRow(d, i, xs) && multiset(xs) == multiset(ys)
    ensures InRow(d, i, ys)
    ensures RowSum(d, i, xs) == RowSum(d, i, ys)
  {
    InRowPerm(d, i, xs, ys);
    if xs == [] {
      assert |ys| == |multiset(ys)| == 0;
    } else {
      var n := |xs|;
      var j := MatchLast(xs, ys);
      var rest := ys[..j] + ys[j + 1..];
      PrefixInRow(d, i, xs, n - 1);
      assert RowSum(d, i, xs) == RowSum(d, i, xs[..n - 1]) + d[i][xs[n - 1]] as int;
      RowSumPerm(d, i, xs[..n - 1], rest);
      RowSumRemove(d, i, ys, j);
    }
  }

  lemma {:induction false} PairSumAppend(d: seq<seq<uint64>>, xs: seq<int>, ys: seq<int>, cols: seq<int>)
    requires InRange(d, xs, cols) && InRange(d, ys, cols)
    ensures InRange(d, xs + ys, cols)
    ensures PairSum(d, xs + ys, cols) == PairSum(d, xs, cols) + PairSum(d, ys, cols)
  {
    var zs := xs + ys;
    assert InRange(d, zs, cols) by {
      forall a | 0 <= a < |zs|
        ensures InRow(d, zs[a], cols)
      {
        if a >= |xs| {
          assert zs[a] == ys[a - |xs|];
        }
      }
    }
    if ys != [] {
      PrefixInRange(d, ys, cols, |ys| - 1);
      PairSumAppend(d, xs, ys[..|ys| - 1], cols);
      assert zs[..|zs| - 1] == xs + ys[..|ys| - 1];
    } else {
      assert zs == xs;
    }
  }

  /** Taking row `ys[j]` out of a pair sum removes exactly its row sum. */
  lemma PairSumRemove(d: seq<seq<uint64>>, ys: seq<int>, j: int, cols: seq<int>)
    requires InRange(d, ys, cols) && 0 <= j < |ys|
    ensures InRange(d, ys[..j] + ys[j + 1..], cols)
    ensures PairSum(d, ys, cols) == PairSum(d, ys[..j] + ys[j + 1..], cols) + RowSum(d, ys[j], cols)
  {
    var x, head, tail := ys[j], ys[..j], ys[j + 1..];
    assert ys == head + ([x] + tail);
    PrefixInRange(d, ys, cols, j);
    assert InRange(d, tail, cols) by {
      forall a | 0 <= a < |tail|
        ensures InRow(d, tail[a], cols)
      {
        assert tail[a] == ys[j + 1 + a];
      }
    }
    assert InRange(d, [x], cols);
    assert PairSum(d, [x], cols) == RowSum(d, x, cols) by {
      assert [x][..0] == [];
    }
    PairSumAppend(d, [x], tail, cols);
    PairSumAppend(d, head, [x] + tail, cols);
    PairSumAppend(d, head, tail, cols);
  }

  /** A pair sum depends only on which rows occur, with their multiplicity. */
  lemma {:induction false} PairSumRowsPerm(d: seq<seq<uint64>>, xs: seq<int>, ys: seq<int>, cols: seq<int>)
    requires InRange(d, xs, cols) && multiset(xs) == multiset(ys)
    ensures InRange(d, ys, cols)
    ensures PairSum(d, xs, cols) == PairSum(d, ys, cols)
  {
    assert InRange(d, ys, cols) by {
      forall a | 0 <= a < |ys|
        ensures InRow(d, ys[a], cols)
      {
        assert ys[a] in multiset(xs);
        var k :| 0 <= k < |xs| && xs[k] == ys[a];
      }
    }
    if xs == [] {
      assert |ys| == |multiset(ys)| == 0;
    } else {
      var n := |xs|;
      var j := MatchLast(xs, ys);
      var rest := ys[..j] + ys[j + 1..];
      PrefixInRange(d, xs, cols, n - 1);
      assert PairSum(d, xs, cols) == PairSum(d, xs[..n - 1], cols) + RowSum(d, xs[n - 1], cols);
      PairSumRowsPerm(d, xs[..n - 1], rest, cols);
      PairSumRemove(d, ys, j, cols);
    }
  }

  /** Reordering the columns of every row leaves a pair sum unchanged. */
  lemma {:induction false} PairSumColsPerm(d: seq<seq<uint64>>, rows: seq<int>, xs: seq<int>, ys: seq<int>)
    requires InRange(d, rows, xs) && multiset(xs) == multiset(ys)
    ensures InRange(d, rows, ys)
    ensures PairSum(d, rows, xs) == PairSum(d, rows, ys)
  {
    forall a | 0 <= a < |rows|
      ensures InRow(d, rows[a], ys)
    {
      InRowPerm(d, rows[a], xs, ys);
    }
    if rows != [] {
      var n := |rows|;
      PrefixInRange(d, rows, xs, n - 1);
      PrefixInRange(d, rows, ys, n - 1);
      PairSumColsPerm(d, rows[..n - 1], xs, ys);
      RowSumPerm(d, rows[n - 1], xs, ys);
    }
  }

  /**
   * The score is a function of the node set: any reordering of the bits, as another
   * iteration order of the bitmask would give, scores the same.
   */
  lemma AvgDistancePermutation(d: seq<seq<uint64>>, xs: seq<int>, ys: seq<int>)
    requires |xs| > 0 && InRange(d, xs, xs) && multiset(xs) == multiset(ys)
    ensures |ys| == |xs| && InRange(d, ys, ys)
    ensures AvgDistance(d, xs) == AvgDistance(d, ys)
  {
    assert |xs| == |multiset(xs)| == |multiset(ys)| == |ys|;
    InRangePerm(d, xs, ys);
    PairSumColsPerm(d, xs, xs, ys);
    PairSumRowsPerm(d, xs, ys, ys);
  }

  /** A singleton set scores exactly its node's distance to itself. */
  lemma SingletonScore(d: seq<seq<uint64>>, n: int)
    requires 0 <= n < |d| && n < |d[n]|
    ensures AvgDistance(d, [n]) == d[n][n] as real
  {
    var bits := [n];
    assert bits[..0] == [];
    assert RowSum(d, n, bits) == d[n][n] as int;
    assert PairSum(d, bits, bits) == d[n][n] as int;
  }

  /** A two-node set scores the mean of its four ordered pairs, both directions as given. */
  lemma TwoNodeScore(d: seq<seq<uint64>>, x: int, y: int)
    requires 0 <= x < |d| && 0 <= y < |d|
    requires x < |d[x]| && y < |d[x]| && x < |d[y]| && y < |d[y]|
    ensures AvgDistance(d, [x, y]) ==
            (d[x][x] as int + d[x][y] as int + d[y][x] as int + d[y][y] as int) as real / 4.0
  {
    var bits := [x, y];
    assert InRange(d, bits, bits);
    assert bits[..1] == [x] && bits[..1][..0] == [];
    assert RowSum(d, x, [x]) == d[x][x] as int;
    assert RowSum(d, y, [x]) == d[y][x] as int;
    assert RowSum(d, x, bits) == d[x][x] as int + d[x][y] as int;
    assert RowSum(d, y, bits) == d[y][x] as int + d[y][y] as int;
    assert PairSum(d, [x], bits) == RowSum(d, x, bits);
    assert PairSum(d, bits, bits) == RowSum(d, x, bits) + RowSum(d, y, bits);
  }

  /** A row sum over `cols` lies between |cols| times any lower and upper bound of its entries. */
  lemma {:induction false} RowSumBounds(d: seq<seq<uint64>>, i: int, cols: seq<int>, lo: int, hi: int)
    requires InRow(d, i, cols)
    requires forall b :: 0 <= b < |cols| ==> lo <= d[i][cols[b]] as int <= hi
    ensures |cols| * lo <= RowSum(d, i, cols) <= |cols| * hi
  {
    if cols != [] {
      var m := |cols|;
      var front := cols[..m - 1];
      PrefixInRow(d, i, cols, m - 1);
      forall b | 0 <= b < m - 1
        ensures 0 <= front[b] < |d[i]| && lo <= d[i][front[b]] as int <= hi
      {
        assert front[b] == cols[b];
      }
      RowSumBounds(d, i, front, lo, hi);
      MulStep(m, lo);
      MulStep(m, hi);
    }
  }

  /** The pair sum over `rows` x `cols` lies between |rows| * |cols| times the entry bounds. */
  lemma {:induction false} PairSumBounds(d: seq<seq<uint64>>, rows: seq<int>, cols: seq<int>, lo: int, hi: int)
    requires InRange(d, rows, cols)
    requires forall a, b :: 0 <= a < |rows| && 0 <= b < |cols| ==> lo <= d[rows[a]][cols[b]] as int <= hi
    ensures |rows| * (|cols| * lo) <= PairSum(d, rows, cols) <= |rows| * (|cols| * hi)
  {
    if rows != [] {
      var n := |rows|;
      var front := rows[..n - 1];
      PrefixInRange(d, rows, cols, n - 1);
      forall a, b | 0 <= a < n - 1 && 0 <= b < |cols|
        ensures InRow(d, front[a], cols) && lo <= d[front[a]][cols[b]] as int <= hi
      {
        assert front[a] == rows[a];
        assert InRow(d, rows[a], cols);
      }
      PairSumBounds(d, front, cols, lo, hi);
      RowSumBounds(d, rows[n - 1], cols, lo, hi);
      MulStep(n, |cols| * lo);
      MulStep(n, |cols| * hi);
    }
  }

  lemma MulStep(n: int, c: int)
    ensures n * c == (n - 1) * c + c
  {
  }

  /** The score of a set lies between any lower and upper bound of its submatrix's entries. */
  lemma ScoreBounds(d: seq<seq<uint64>>, bits: seq<int>, lo: int, hi: int)
    requires |bits| > 0
    requires InRange(d, bits, bits)
    requires forall a, b :: 0 <= a < |bits| && 0 <= b < |bits| ==> lo <= d[bits[a]][bits[b]] as int <= hi
    ensures lo as real <= AvgDistance(d, bits) <= hi as real
  {
    PairSumBounds(d, bits, bits, lo, hi);
    MeanBounds(PairSum(d, bits, bits), |bits|, lo, hi);
  }

  lemma MeanBounds(sum: int, n: int, lo: int, hi: int)
    requires n > 0 && n * (n * lo) <= sum <= n * (n * hi)
    ensures lo as real <= sum as real / (n * n) as real <= hi as real
  {
    var k := n * n;
    assert k > 0 by { MulPositive(n, n); }
    assert n * (n * lo) == k * lo && n * (n * hi) == k * hi;
    RealDivBounds(sum as real, k as real, lo as real, hi as real);
  }

  lemma MulPositive(a: int, b: int)
    requires a > 0 && b > 0
    ensures a * b > 0
  {
  }

  lemma RealDivBounds(s: real, k: real, lo: real, hi: real)
    requires k > 0.0 && k * lo <= s <= k * hi
    ensures lo <= s / k <= hi
  {
    assert s / k * k == s;
  }

  /** What getDistancesForNode yields for `nodeId` when reading `sysFs` in its present state. */
  function FetchRow(sysFs: FakeSysFs, nodeId: int): Result<seq<uint64>, Error>
    reads sysFs
  {
    var (line, err) := sysFs.Lookup(nodeId);
    if err.Some? then Err(err.value) else ParseRow(line)
  }

  /** Once the source has handed out `line` without error, the row is the parse of that line. */
  lemma FetchedLine(sysFs: FakeSysFs, nodeId: int, line: string)
    requires sysFs.Lookup(nodeId) == (line, None)
    ensures FetchRow(sysFs, nodeId) == ParseTokens(Split(line))
  {
  }

  /**
   * getDistancesForNode: fetches the node's line, passing a fetch error through
   * unchanged, then parses it token by token; the first bad token is reported.
   */
  method GetDistancesForNode(sysFs: FakeSysFs, nodeId: int) returns (row: seq<uint64>, err: Option<Error>)
    ensures err.None? <==> FetchRow(sysFs, nodeId).Ok?
    ensures err.None? ==> FetchRow(sysFs, nodeId) == Ok(row)
    ensures err.Some? ==> row == [] && FetchRow(sysFs, nodeId) == Err(err.value)
  {
    var line, e := sysFs.GetDistances(nodeId);
    if e.Some? {
      return [], e;
    }
    FetchedLine(sysFs, nodeId, line);
    row, err := ParseDistances(Split(line));
  }

  /**
   * The token loop of getDistancesForNode: each piece is parsed in turn, and the first
   * one that does not parse ends the loop with an empty row and `CannotConvert`.
   */
  method ParseDistances(tokens: seq<string>) returns (row: seq<uint64>, err: Option<Error>)
    ensures err.None? <==> ParseTokens(tokens).Ok?
    ensures err.None? ==> ParseTokens(tokens) == Ok(row)
    ensures err.Some? ==> row == [] && ParseTokens(tokens) == Err(err.value)
  {
    row := [];
    assert tokens[..0] == [];
    for i := 0 to |tokens|
      invariant ParseTokens(tokens[..i]) == Ok(row)
    {
      var v := ParseUint(tokens[i]);
      if v.None? {
        ParsePrefixFails(tokens, i);
        return [], Some(CannotConvert(tokens[i]));
      }
      ParsePrefixStep(tokens, i, row);
      row := row + [v.value];
    }
    assert tokens[..|tokens|] == tokens;
    err := None;
  }

  /**
   * The rows of `topology[0..k]` all fetch and parse, so `New` reaches the store of
   * `topology[k]`'s row, which indexes `distances` by its id.
   */
  predicate FetchedUpTo(sysFs: FakeSysFs, topology: seq<Node>, k: int)
    requires 0 <= k < |topology|
    reads sysFs
  {
    forall j :: 0 <= j <= k ==> FetchRow(sysFs, topology[j].id).Ok?
  }

  /** `topology[k]` is the first node whose row cannot be fetched or parsed. */
  predicate FirstFailing(sysFs: FakeSysFs, topology: seq<Node>, k: int)
    requires 0 <= k < |topology|
    reads sysFs
  {
    FetchRow(sysFs, topology[k].id).Err? &&
    forall j :: 0 <= j < k ==> FetchRow(sysFs, topology[j].id).Ok?
  }

  /**
   * New: fetches and parses the row of every node in input order and stores it at the
   * node's id; the ids are kept in input order. The first failure ends construction
   * with the zero topology and that error. Go panics when a stored row's id lies
   * outside `[0, |topology|)`; an out-of-range id whose row is never stored is allowed.
   */
  method New(topology: seq<Node>, sysFs: FakeSysFs) returns (t: Topology, err: Option<Error>)
    requires forall k :: 0 <= k < |topology| && FetchedUpTo(sysFs, topology, k) ==> 0 <= topology[k].id < |topology|
    ensures err.None? <==> forall k :: 0 <= k < |topology| ==> FetchRow(sysFs, topology[k].id).Ok?
    ensures err.None? ==> forall k :: 0 <= k < |topology| ==> 0 <= topology[k].id < |topology|
    ensures err.Some? ==> t == Topology([], [])
    ensures err.Some? ==> exists k :: 0 <= k < |topology| && FirstFailing(sysFs, topology, k) &&
                                      FetchRow(sysFs, topology[k].id) == Err(err.value)
    ensures err.None? ==> t.GetNumaNodes() == Ids(topology) && t.NumaNodesCount() == |topology|
    ensures err.None? ==> |t.distances| == |topology|
    ensures err.None? ==> forall k :: 0 <= k < |topology| ==> FetchRow(sysFs, topology[k].id) == Ok(t.distances[topology[k].id])
    ensures err.None? ==> forall id :: 0 <= id < |topology| && id !in t.numaNodes ==> t.distances[id] == []
  {
    var numaNodes: seq<int> := [];
    var distances: seq<seq<uint64>> := seq(|topology|, _ => []);
    for i := 0 to |topology|
      invariant numaNodes == Ids(topology[..i])
      invariant |distances| == |topology|
      invariant forall k :: 0 <= k < i ==> FetchRow(sysFs, topology[k].id).Ok? && 0 <= topology[k].id < |topology|
      invariant forall k :: 0 <= k < i ==> FetchRow(sysFs, topology[k].id) == Ok(distances[topology[k].id])
      invariant forall id :: 0 <= id < |topology| && id !in numaNodes ==> distances[id] == []
    {
      numaNodes := numaNodes + [topology[i].id];
      var row, e := GetDistancesForNode(sysFs, topology[i].id);
      if e.Some? {
        assert FirstFailing(sysFs, topology, i);
        return Topology([], []), e;
      }
      assert FetchedUpTo(sysFs, topology, i);
      distances := distances[topology[i].id := row];
    }
    assert topology[..|topology|] == topology;
    return Topology(numaNodes, distances), None;
  }
}
