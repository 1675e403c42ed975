/**
 * Cases modelled on numa_topology_test.go, derived from the contracts of the model alone:
 * building topologies from a seeded fake source and scoring node sets. The test's rows
 * are kept as parameters, so each case holds for any rows of that shape; MissingLineTopology
 * is a case of this model's own, not one of the test's.
 */
module Scenarios {
  import opened Wrappers
  import opened Errors
  import opened DistanceLine
  import opened Fakesysfs
  import opened NumaTopology

  const Row0: seq<uint64> := [10, 11, 12, 12]
  const Row1: seq<uint64> := [11, 10, 12, 12]
  const Row2: seq<uint64> := [12, 12, 10, 11]
  const Row3: seq<uint64> := [12, 12, 11, 10]

  /** The test's first line is the rendering of its first row. */
  lemma FirstLineParses()
    ensures ParseRow("10 11 12 12") == Ok(Row0)
  {
    FirstLineRendered();
    ParseRowRoundTrip(Row0);
  }

  lemma FirstLineRendered()
    ensures Join(Render(Row0)) == "10 11 12 12"
  {
    RenderedRow0();
    assert Join(["12"]) == "12";
    assert Join(["12", "12"]) == "12 12";
    assert Join(["11", "12", "12"]) == "11 12 12";
  }

  lemma RenderedRow0()
    ensures Render(Row0) == ["10", "11", "12", "12"]
  {
    assert FormatUint(10) == "10" && FormatUint(11) == "11" && FormatUint(12) == "12";
  }

  /** The test's fixture: a fake source holding, under ids 0 to 3, the lines of four rows. */
  method SeedRows(rows: seq<seq<uint64>>) returns (fs: FakeSysFs)
    requires |rows| == 4 && forall k :: 0 <= k < 4 ==> |rows[k]| > 0
    ensures fresh(fs)
    ensures forall k :: 0 <= k < 4 ==> FetchRow(fs, k) == Ok(rows[k])
    ensures forall k :: (k < 0 || 4 <= k) ==> fs.Lookup(k) == ("", Some(DistanceNotFound))
  {
    var lines := seq(4, k requires 0 <= k < 4 => Join(Render(rows[k])));
    forall k | 0 <= k < 4
      ensures ParseRow(lines[k]) == Ok(rows[k])
    {
      ParseRowRoundTrip(rows[k]);
    }
    fs := new FakeSysFs();
    for k := 0 to 4
      invariant fs.distancesErr == None
      invariant forall j :: fs.Lookup(j) == (if 0 <= j < k then (lines[j], None) else ("", Some(DistanceNotFound)))
    {
      fs.SetDistances(k, lines[k], None);
    }
    forall k | 0 <= k < 4
      ensures FetchRow(fs, k) == Ok(rows[k])
    {
      assert fs.Lookup(k) == (lines[k], None);
    }
  }

  /**
   * "positive test 1 node" to "positive test 4 nodes": with four rows seeded under ids
   * 0 to 3, the topology of nodes 0 to n - 1 lists those ids and holds exactly their rows.
   */
  method SeededTopology(rows: seq<seq<uint64>>, n: nat)
    requires |rows| == 4 && forall k :: 0 <= k < 4 ==> |rows[k]| > 0
    requires 1 <= n <= 4
  {
    var fs := SeedRows(rows);
    var nodes := seq(n, k => Node(k));
    var t, err := New(nodes, fs);
    assert forall k :: 0 <= k < n ==> FetchRow(fs, nodes[k].id).Ok?;
    assert err == None;
    assert t.numaNodes == seq(n, k => k);
    forall k | 0 <= k < n
      ensures t.distances[k] == rows[k]
    {
      assert nodes[k].id == k;
      assert FetchRow(fs, nodes[k].id) == Ok(t.distances[nodes[k].id]);
    }
    assert t.distances == rows[..n];
    assert t == Topology(seq(n, k => k), rows[..n]);
  }

  /**
   * "negative test 1 node": a sticky error seeded under another node id is handed back
   * unchanged, with the zero topology, though node 0 has a good line.
   */
  method StickyErrorTopology(rows: seq<seq<uint64>>, e: Error)
    requires |rows| == 4 && forall k :: 0 <= k < 4 ==> |rows[k]| > 0
  {
    var fs := SeedRows(rows);
    fs.SetDistances(99, "", Some(e));
    var t, err := New([Node(0)], fs);
    assert FetchRow(fs, [Node(0)][0].id) == Err(e);
    assert err == Some(e);
    assert t == Topology([], []);
  }

  /**
   * A node without a line fails construction with DistanceNotFound, after the nodes
   * before it were read; its id may lie outside [0, number of nodes), since a failed
   * fetch returns before any row is stored.
   */
  method MissingLineTopology(rows: seq<seq<uint64>>)
    requires |rows| == 4 && forall k :: 0 <= k < 4 ==> |rows[k]| > 0
  {
    var fs := SeedRows(rows);
    var nodes := [Node(0), Node(5)];
    assert FetchRow(fs, nodes[1].id) == Err(DistanceNotFound);
    var t, err := New(nodes, fs);
    assert err == Some(DistanceNotFound);
    assert t == Topology([], []);
  }

  /** The scores TestCalculateAvgDistanceFor expects, as exact ratios. */
  lemma ScoreExamples()
    ensures AvgDistance([[10]], [0]) == 10.0
    ensures AvgDistance([[10, 11], [11, 10]], [0]) == 10.0
    ensures AvgDistance([[10, 11], [11, 10]], [0, 1]) == 10.5
    ensures AvgDistance([Row0, Row1, Row2, Row3], [0, 2]) == 11.0
    ensures AvgDistance([Row0, Row1, Row2, Row3], [0, 2, 3]) == 100.0 / 9.0
  {
    var d := [Row0, Row1, Row2, Row3];
    SingletonScore([[10]], 0);
    SingletonScore([[10, 11], [11, 10]], 0);
    TwoNodeScore([[10, 11], [11, 10]], 0, 1);
    TwoNodeScore(d, 0, 2);
    var bits := [0, 2, 3];
    assert bits[..2] == [0, 2] && [0, 2][..1] == [0] && [0][..0] == [];
    forall i | i in bits
      ensures RowSum(d, i, [0]) == d[i][0] as int
      ensures RowSum(d, i, [0, 2]) == d[i][0] as int + d[i][2] as int
      ensures RowSum(d, i, bits) == d[i][0] as int + d[i][2] as int + d[i][3] as int
    {
    }
    assert PairSum(d, [0], bits) == 34;
    assert PairSum(d, [0, 2], bits) == 67;
    assert PairSum(d, bits, bits) == 100;
  }
}
