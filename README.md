# Vector clocks and the causal event log

A Dafny model of the logical-clock layer of `src/order`: the vector clock
(`new`, `extend`, `merge`, `partial_cmp`, `eq`), the append-only event log of a
process (`exec`, `send`, `recv` of `OrdProcess`) instantiated with vector
clocks, and the `pairwise_max` helper.

- `order.dfy` — module `Order`: `Ordering`, `Option` (with `unwrap_or`),
  `Max` and `PairwiseMax`.
- `vector_clock.dfy` — module `VectorClocks`: the clock as a datatype
  `VectorClock(i, clk)`, the three clock operations, the comparison exactly as
  the source's `try_fold` computes it, the causal-order facts, and a corrected
  comparison (see Findings).
- `process.dfy` — module `OrdProcesses`: class `VectorProcess` with constant
  `pid` and `nProcs` and a field `events: seq<VectorClock>` that `Exec`, `Send`
  and `Recv` extend by one event each; lemmas on program order and on
  send/receive order.
- `vector_clock_tests.dfy` — module `VectorClockTests`: the two tests of the
  vector-clock module (`partial_ord` and `mock_scheduler`), as a lemma and as
  a client method.

Modelling decisions:

- Counters are `nat`; `usize` overflow on `+= 1` is not modelled.
- `assert!` panics become preconditions: `New` requires `i < n`; `Merge`,
  `Merged` and `Recv` require vectors of equal length. `extend` indexes the
  owner's counter; the struct's fields are private and every way of building a
  clock keeps `i < |clk|` (`WellFormed`), so `Extend` requires it.
- `merge` clones the clock and overwrites its counters in a loop: `Merge` is
  a method with that loop, proved equal to the function `Merged`, which the
  process and the lemmas use. `extend` changes one counter of a clone and is
  the function `Extend`.
- `partial_cmp` is the recursive function `TryFold` (the `try_fold` closure,
  left to right, short-circuiting on a larger counter) behind `PartialCmp`.
  Rust's `<` is `Lt` (`partial_cmp` gives `Some(Less)`), Rust's `>` is `Gt`.
  A textbook vector-clock order is symmetric and rejects vectors of different
  lengths; this `partial_cmp` answers `None` both for different lengths and
  whenever the left clock has a larger counter, and the model follows it.
- `OrdProcess` is generic over any `LogicalClock`; the model instantiates it
  with `VectorClock` only, the one clock with an implementation. The base
  clock of a new event is `Base()`: the last event, otherwise a genesis clock.
  `unwrap_or` builds the genesis clock in both cases, so `Exec`, `Send` and
  `Recv` require `pid < nProcs` even on a non-empty history.
- The closures become parameters and results: `exec`'s work is dropped,
  `send` returns the value it would hand to `send_fn`, and `recv` takes the
  value `recv_fn` would return.
- The tests import `crate::order::Process` (src/order/vector_clock.rs:62) and
  call `Process::new` and `snapshot`, but `src/order/mod.rs` declares no such
  type. `VectorProcess` stands in for it: a constructor that starts with an
  empty history, like `ChandyLamportProc::new`, and the field `events` for
  `snapshot()`.

## Model

| member | source | states |
|---|---|---|
| `Order.PairwiseMax` | src/order/mod.rs:62-67 | the result is as long as the shorter input and item `k` is `max(a[k], b[k])` |
| `VectorClocks.New` | src/order/vector_clock.rs:10-18 | only callable with `i < n`; `n` counters, 1 at the owner's index and 0 elsewhere, owner `i` |
| `VectorClocks.Extend` | src/order/vector_clock.rs:20-24 | the owner's counter goes up by one; owner, length and every other counter are unchanged |
| `VectorClocks.Merged` | src/order/vector_clock.rs:25-36 | counter `j` is `max(self[j], other[j])`, plus one at the owner's index; the owner stays `self.i`; only for equal lengths |
| `VectorClocks.Merge` | src/order/vector_clock.rs:25-36 | the in-place loop over the cloned counters computes exactly `Merged(self, other)` |
| `VectorClocks.TryFold` | src/order/vector_clock.rs:44-51 | the `try_fold` closure over the zipped counters; started from a running answer other than `Greater` it never yields `Greater`, and it yields `Equal` only from `Equal` |
| `VectorClocks.TryFoldMeaning` | src/order/vector_clock.rs:44-51 | on equal lengths the fold yields `None` unless every counter is `<=`, the running answer on equal vectors, `Less` otherwise |
| `VectorClocks.PartialCmp` | src/order/vector_clock.rs:39-53 | `None` on different lengths; `Some(Equal)` iff the counters are equal; `Some(Less)` iff every counter is `<=` and the vectors differ; `None` in every other case; never `Some(Greater)` |
| `VectorClocks.Eq` | src/order/vector_clock.rs:55-59 | `eq` holds exactly when `partial_cmp` reports `Equal` |
| `VectorClocks.EqualityIgnoresOwner` | src/order/vector_clock.rs:55-59 | changing the owner index changes neither `eq` nor `partial_cmp` |
| `VectorClocks.LtTransitive` | src/order/vector_clock.rs:128-133 | `<` is transitive, which the transitive send/receive checks rely on |
| `VectorClocks.LtAsymmetric` | src/order/vector_clock.rs:39-53 | `a < b` excludes `b < a` and `a == b` |
| `VectorClocks.ExtendStrictlyGrows` | src/order/vector_clock.rs:68-70 | `a < a.extend()` |
| `VectorClocks.MergeStrictlyGrows` | src/order/vector_clock.rs:77-80 | `self < self.merge(other)` and `other < self.merge(other)` |
| `VectorClocks.GenesisIncomparable` | src/order/vector_clock.rs:73-75 | genesis clocks of two different processes of one cluster compare as `None` |
| `VectorClocks.ExtendNotReportedGreater` | src/order/vector_clock.rs:47-51 | as written, `a < a.extend()` holds but `a.extend() > a` does not |
| `VectorClocks.TryFoldBothMeaning` | src/order/vector_clock.rs:44-51 | the fold with the `Greater` case restored reports equality, strict domination in either direction, or `None` |
| `VectorClocks.CausalCmp` | src/order/vector_clock.rs:39-53 | the corrected comparison: `Greater` iff `b` is strictly dominated by `a`, and the same answer as `partial_cmp` wherever that one answers |
| `VectorClocks.CausalCmpDual` | src/order/vector_clock.rs:39-53 | the corrected comparison mirrors: `a < b` iff `b > a`, equality and incomparability are symmetric |
| `VectorClocks.CausalCmpAgreesOnLess` | src/order/vector_clock.rs:39-53 | the corrected comparison reports `Less` exactly when `partial_cmp` does |
| `VectorClocks.CausalCmpGenesisIncomparable` | src/order/vector_clock.rs:73-75 | under the corrected comparison too, genesis clocks of two different processes compare as `None` |
| `OrdProcesses.HistoryIncreasing` | src/order/vector_clock.rs:123-126 | along a program-ordered history every earlier event is `<` every later one |
| `OrdProcesses.HistoryBelowLast` | src/order/vector_clock.rs:123-126 | every event of a program-ordered history but the last is `<` the last |
| `OrdProcesses.MessageOrder` | src/order/vector_clock.rs:128-133 | if the event at index `s` is `<` a clock, so is every event up to and including `s` |
| `OrdProcesses.VectorProcess.constructor` | src/order/vector_clock.rs:91 | a new process has the given identity and an empty history |
| `OrdProcesses.VectorProcess.LastEvent` | src/order/mod.rs:19 | `None` exactly on an empty history, otherwise the last event |
| `OrdProcesses.VectorProcess.Base` | src/order/mod.rs:32-35 | the last event, or the genesis clock of `(pid, nProcs)` on an empty history; every recorded event is `<` it or is it |
| `OrdProcesses.VectorProcess.Exec` | src/order/mod.rs:31-38 | appends exactly `extend` of the base, leaves the earlier events untouched, keeps program order |
| `OrdProcesses.VectorProcess.Send` | src/order/mod.rs:41-48 | appends exactly `extend` of the base and returns that same value; keeps program order |
| `OrdProcesses.VectorProcess.Recv` | src/order/mod.rs:51-58 | appends exactly `merge(base, received)`; both the base and the received clock are `<` it; keeps program order |
| `VectorClockTests.PartialOrdScenario` | src/order/vector_clock.rs:65-82 | the ten comparison outcomes of the two-process test |
| `VectorClockTests.StepSendStep` | src/order/vector_clock.rs:90-96 | the body of the first and (up to its receive) third thread: the history is the genesis clock extended once, twice and three times, and the value sent is the second event |
| `VectorClockTests.StepRecvRecvSend` | src/order/vector_clock.rs:97-104 | the body of the second thread: the history is the extended genesis clock, its merge with the first received value, that merged with the second, and the extension of the last; the value sent is the fourth event |
| `VectorClockTests.ScheduleOrder` | src/order/vector_clock.rs:128-133 | from program order and the three receives, every send-before-receive fact of the test, including the two-hop ones |
| `VectorClockTests.Run` | src/order/vector_clock.rs:84-134 | 3, 4 and 4 events; each history in program order; each send/receive order and its transitive consequences |

## Left out

- `src/order/matrix_clock.rs`: every operation is `todo!()`; there is no behaviour to model.
- `src/order/chandy_lamport.rs`: `ChandyLamportClock::new` and `ChandyLamportClock::merge` are `todo!()`, `ChandyLamportClock::extend` returns `Self::default()`, and `ChandyLamportProc::global_snapshot` is `todo!()`; the marker protocol has no behaviour to model.
- `src/sync/`: the Peterson and bakery locks are about atomic memory ordering between threads.
- `GCClock` has no implementer, and `CausalOrd` is an empty marker trait.
- The `LogicalClock` trait's genericity: `OrdProcess` is modelled at `VectorClock` only.
- `HasEvents::push_event`, `pid`, `n_procs` and `events` are direct field accesses on `VectorProcess`.
- Threads, `mpsc` channels and `rand_timeout` of the tests: `VectorClockTests.Run` fixes one schedule that respects the channels. The clock values do not depend on the interleaving.
- `usize` overflow of a counter: counters are unbounded `nat`.

## Findings

| source | as written | input that shows it | evidently intended | confidence | as-written member | corrected member |
|---|---|---|---|---|---|---|
| src/order/vector_clock.rs:47-51 | a larger counter on the left makes the fold return `None`, so `partial_cmp` never reports `Greater` and Rust's `>` never holds | `a = new(0, 2)`, `b = a.extend()`: `a < b`, but `b > a` is false | `partial_cmp(b, a) == Some(Greater)` exactly when `partial_cmp(a, b) == Some(Less)`, as `PartialOrd` requires | medium, not executed | `VectorClocks.ExtendNotReportedGreater` | `VectorClocks.CausalCmp` |

`CausalCmp` reports `Less` exactly when `PartialCmp` does
(`CausalCmpAgreesOnLess`), so every fact of this model stated with `<`
(`Lt`) holds for the corrected comparison too; it also reports `Equal`
exactly on equal counters, as `PartialCmp` does. Where `PartialCmp` answers
`None`, `CausalCmp` may answer `Greater`: of the `None` facts, the
incomparability of distinct genesis clocks is proved for it as well
(`CausalCmpGenesisIncomparable`), and the `None` outcomes of
`PartialOrdScenario` are stated for `PartialCmp` only.
