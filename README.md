# NUMA distance topology of the kubelet topology manager, in Dafny

This project models the `numatopology` package of the kubelet topology manager and
the in-memory distance source it is tested against.

- `New` builds a `Topology` from the NUMA nodes cAdvisor reports. For every node, in
  input order, it fetches the node's distance line from a distance source, cuts it at
  single spaces and parses each piece as a base-10 `uint64`. The row is stored at the
  node's id and the ids are kept in input order. The first fetch or parse failure ends
  construction with the zero `Topology` and that error.
- `CalculateAvgDistanceFor` scores a candidate set of NUMA nodes: the mean of
  `distances[i][j]` over every ordered pair of set bits, self-pairs included, so a
  set of k nodes is divided by k². The hint provider uses it as a tie-break.
- `FakeSysFs` holds a map from node id to distance line and one sticky error; while the
  error is set it is returned for every node.

Files:

- `wrappers.dfy`: `Option` and `Result`, standing for Go's `(value, error)` pairs.
- `errors.dfy`: the error kinds (`DistanceNotFound`, `CannotConvert(token)`, and any
  other error a source returns, `Injected(message)`).
- `distance_line.dfy`: `strings.Split(line, " ")`, `strconv.ParseUint(tok, 10, 64)`,
  the token loop's meaning as the function `ParseTokens`, and the lemmas about parsing.
- `fake_sysfs.dfy`: the `FakeSysFs` class. Go's nil map is `None`, so both branches of
  `SetDistances` are kept. `Lookup` is the value `GetDistances` returns in a given state.
- `numa_topology.dfy`: the `Topology` datatype, the methods `New`,
  `GetDistancesForNode` (its token loop is the method `ParseDistances`) and
  `Topology.CalculateAvgDistanceFor`, the exact score
  `AvgDistance` they are proved against, and the lemmas about the score.
- `scenarios.dfy`: cases modelled on `numa_topology_test.go`, derived from the
  contracts alone. `SeededTopology` (the positive 1- to 4-node cases) and
  `StickyErrorTopology` (the negative case) are client methods without contracts of
  their own; they hold for any four non-empty rows, not only the test's.
  `MissingLineTopology` is an extra case, not one of the test's: a node without a line,
  whose id is beyond the node count, fails with `DistanceNotFound`.

The code does the following, which a reader may not expect:

- Rows are not checked against the node count. A one-node topology keeps a
  four-entry row.
- Lines are cut at single spaces only, not at any whitespace. An empty line, a
  leading or trailing space and two adjacent spaces all fail.
- Rows are indexed by raw node id in a slice of length `len(topology)`. The index is
  taken only after the node's row was fetched and parsed, so the code panics only
  when a node whose row parses has an id outside `[0, len(topology))`. `New` requires
  exactly that this does not happen; an out-of-range id whose fetch or parse fails, or
  that comes after a failing node, is accepted and yields the error.

## Model

| member | source | states |
|---|---|---|
| `NumaTopology.New` | pkg/kubelet/cm/topologymanager/numatopology/numa_topology.go:34-57 | requires an in-range id only of nodes whose row and every earlier node's row parse (where the code would index); succeeds exactly when every node's row can be fetched and parsed; on success `GetNumaNodes()` is the input ids in input order, `NumaNodesCount()` is the number of input nodes, `distances` has `len(topology)` rows, `distances[id]` is the row parsed for `id` whatever its length, and ids not in the input keep an empty row; on failure the result is the zero `Topology` and the error is the one of the first failing node, passed through unchanged |
| `NumaTopology.GetDistancesForNode` | pkg/kubelet/cm/topologymanager/numatopology/numa_topology.go:59-74 | a fetch error is returned unchanged with an empty row; otherwise the result is the parse of the fetched line, token by token, with `CannotConvert` naming the first bad token |
| `NumaTopology.ParseDistances` | pkg/kubelet/cm/topologymanager/numatopology/numa_topology.go:65-73 | the token loop succeeds exactly when `ParseTokens` does and then yields its values; otherwise it returns an empty row and the error of the first token that does not parse |
| `NumaTopology.Topology.NumaNodesCount` | pkg/kubelet/cm/topologymanager/numatopology/numa_topology.go:76-82 | the count equals the length of `GetNumaNodes()`, the node list `New` states to be the input ids in input order |
| `NumaTopology.Topology.CalculateAvgDistanceFor` | pkg/kubelet/cm/topologymanager/numatopology/numa_topology.go:84-95 | for a non-empty set of k bits the result is the sum of `distances[i][j]` over all ordered pairs of bits, self-pairs included, divided by k²; it reads only `distances` and changes nothing |
| `NumaTopology.AvgDistancePermutation` | pkg/kubelet/cm/topologymanager/numatopology/numa_topology.go:84-95 | the score depends only on the set of bits: any reordering of them meets the same range conditions and scores the same |
| `NumaTopology.SingletonScore` | pkg/kubelet/cm/topologymanager/numatopology/numa_topology.go:84-95 | a singleton `{n}` scores exactly `distances[n][n]` |
| `NumaTopology.TwoNodeScore` | pkg/kubelet/cm/topologymanager/numatopology/numa_topology.go:84-95 | `{a, b}` scores `(d[a][a] + d[a][b] + d[b][a] + d[b][b]) / 4`, using both directions as given |
| `NumaTopology.ScoreBounds` | pkg/kubelet/cm/topologymanager/numatopology/numa_topology.go:84-95 | the score lies between any lower and any upper bound of the entries of the selected submatrix, so between its minimum and its maximum |
| `NumaTopology.PairSumBounds` | pkg/kubelet/cm/topologymanager/numatopology/numa_topology.go:87-92 | the accumulated sum over rows x cols lies between the pair count times the lower and upper entry bounds |
| `NumaTopology.RowSumBounds` | pkg/kubelet/cm/topologymanager/numatopology/numa_topology.go:88-91 | one row's accumulated sum lies between the column count times the entry bounds |
| `DistanceLine.Split` | pkg/kubelet/cm/topologymanager/numatopology/numa_topology.go:66 | there is at least one piece, no piece holds a space, and joining the pieces with single spaces gives the line back |
| `DistanceLine.SplitJoin` | pkg/kubelet/cm/topologymanager/numatopology/numa_topology.go:66 | splitting the single-space join of a non-empty list of space-free pieces gives that list back |
| `DistanceLine.ParseUint` | pkg/kubelet/cm/topologymanager/numatopology/numa_topology.go:67 | a token parses exactly when it is a non-empty string of decimal digits whose value is below 2^64, and then to that value; so a sign, a space or an underscore is rejected, and so is a digit string of value 2^64 or more |
| `DistanceLine.ParseLeadingZero` | pkg/kubelet/cm/topologymanager/numatopology/numa_topology.go:67 | leading zeros are accepted and do not change the result: `"0" + tok` parses exactly as `tok` does |
| `DistanceLine.ParseCanonical` | pkg/kubelet/cm/topologymanager/numatopology/numa_topology.go:67 | a digit string without leading zeros below 2^64 parses, and rendering the value gives the token back |
| `DistanceLine.ParseTokens` | pkg/kubelet/cm/topologymanager/numatopology/numa_topology.go:65-73 | succeeds exactly when every token parses; on success there is one value per token, each the token's value; on failure the error is `CannotConvert` of the first token that does not parse |
| `DistanceLine.FormatUint` | pkg/kubelet/cm/topologymanager/numatopology/numa_topology_test.go:180-183 | the decimal rendering used for distance lines is a non-empty digit string whose value is the number rendered |
| `DistanceLine.ParseFormatUint` | pkg/kubelet/cm/topologymanager/numatopology/numa_topology.go:67 | a `uint64` rendered in decimal parses back to itself |
| `DistanceLine.ParseRowRoundTrip` | pkg/kubelet/cm/topologymanager/numatopology/numa_topology.go:65-73 | the single-space join of the decimal renderings of a non-empty list of `uint64` values parses back to that list |
| `DistanceLine.LeadingEmptyTokenFails` | pkg/kubelet/cm/topologymanager/numatopology/numa_topology.go:66-70 | an empty line, or one starting with a space, fails with `CannotConvert` of the empty token |
| `DistanceLine.DoubleOrTrailingSpaceFails` | pkg/kubelet/cm/topologymanager/numatopology/numa_topology.go:66-70 | a line with two adjacent spaces or a trailing space fails |
| `DistanceLine.ParsedLineAlphabet` | pkg/kubelet/cm/topologymanager/numatopology/numa_topology.go:66-70 | a line that parses consists of decimal digits and spaces only |
| `Fakesysfs.FakeSysFs.constructor` | pkg/kubelet/cm/topologymanager/numatopology/fakesysfs/fake.go:5-8 | the zero value holds a nil map and no error |
| `Fakesysfs.FakeSysFs.GetDistances` | pkg/kubelet/cm/topologymanager/numatopology/fakesysfs/fake.go:10-20 | with the sticky error set, that error and an empty line for every node; otherwise `DistanceNotFound` and an empty line for an absent id, and the stored line with no error for a present one |
| `Fakesysfs.FakeSysFs.SetDistances` | pkg/kubelet/cm/topologymanager/numatopology/fakesysfs/fake.go:22-29 | maps the id to the line, creating the map with that single entry on first use, and leaves every other entry as it was; the sticky error becomes the argument, so the last call wins and `None` clears it; after a call with no error, `GetDistances` of that id returns the line with no error |
| `Scenarios.FirstLineParses` | pkg/kubelet/cm/topologymanager/numatopology/numa_topology_test.go:180 | the test's line `"10 11 12 12"` parses to the row `[10, 11, 12, 12]` |
| `Scenarios.ScoreExamples` | pkg/kubelet/cm/topologymanager/numatopology/numa_topology_test.go:206-327 | the test matrices score 10 (one node), 10 (one bit of two nodes), 10.5, 11 and exactly 100/9 |

## Left out

- The real sysfs reader (`NewRealSysFs` and the directory it reads) is file I/O and is not part of this model. `New` and `GetDistancesForNode` take the one distance source modelled here, `FakeSysFs`. Their contracts are stated through `FakeSysFs.Lookup`, the value the source returns for an id.
- How many times the source is asked is not modelled. `New`'s contract gives the outcome of stopping at the first failing node, and reading the fake has no effect.
- `NumaTopology.Topology.CalculateAvgDistanceFor`: the score is the exact rational mean, not a float64. The float64 rounding (11.11111111111111 in the test for 100/9) and the order of float additions are not modelled.
- `NumaTopology.Topology.CalculateAvgDistanceFor`: an empty bitmask is excluded by a precondition. In Go, 0/0 in float64 gives NaN, which a real number cannot stand for.
- Go panics on an out-of-range slice index. The model turns these into preconditions. For `New`: a node whose row, and every earlier node's row, was fetched and parsed has an id in `[0, len(topology))`. For `CalculateAvgDistanceFor`: the set bits index rows long enough.
- The `bitmask` package is not part of this model. A bitmask is the sequence `GetBits()` yields.
- `cadvisorapi.Node` is reduced to its `Id`.
- Error message text and Go error identity are reduced to the `Error` kinds; a source's error is passed through as the same value.
- The topology-manager policy options and the iso-client add-on (gRPC, signals, cgroup writes) are not part of this model.
