# latency-measure client core, modelled in Dafny

The latency-measure client asks a measure agent `times` times for the timing
breakdown of one HTTP request to a target URL: DNS lookup, TCP connect, TLS
handshake, request send and time to first byte. It records each answer under
a label. It can then append the null-propagating average of what it
collected. This project models three pieces of that system:

- `measure_types.dfy` (module `Measure`): the `MeasureResponse` record, with
  every `Duration` as a natural number of nanoseconds. It also holds the
  reference definitions that the averages are proved against: sums of a
  field, "every response has the optional phase", the optional mean, and
  Rust's `times as u32` cast (`AsU32`, the low 32 bits).
- `orchestrator_collect.dfy` (module `OrchestratorCollect`): the free
  `average` of the orchestrator, which is a left fold followed by divisions.
  It also holds the `Labeled` wrapper with `new`, `deref`, `deref_mut` and
  `Labeled::average`. The Rust field `label` is called `tag` here, because
  `label` is a Dafny keyword.
- `client_collect.dfy` (module `ClientCollect`): the client's own copy of
  `average`. Its response carries an extra `ip` string, which the average
  resets to `""`.
- `client_main.dfy` (module `ClientMain`): the `Runtime` class. Its
  `results` field is a sequence that `Run` appends to. The network is
  abstracted: the outcome of attempt `i` is the input `outcomes[i]`, either a
  response or a probe error.
  - Sequential mode stops at the first error and returns it.
  - Flood mode keeps the successes in submission order and drops the
    failures.
  - The optional average is computed over all of `results` and appended last
    under the label "average".
  - The flood loop and the sequential loop of `run` are the methods `Flood`
    and `Sequential`. `Run` picks one of them and then appends the average.
  - `Run` returns how the run ended (`Status`) and how many probes it issued.
    Its `ensures` ties the new `results` to the reference function `RunSpec`.
    The lemmas beside it prove the properties of each mode.

The divisor of both averages is `times as u32`, as the code writes it.
`AsU32` states that this equals `times` for every `times` below 2^32.
Dividing a `Duration` by zero panics in Rust. Each `Average` therefore
requires `AsU32(times) > 0`. `Run` reports the same panic as the status
`DivideByZeroPanic`, since its caller does not rule it out.

Three behaviours of the code worth knowing:
- The average divides by `times`, not by the number of entries. It accepts
  an empty series and then yields zeros, with both optional fields present.
- A failed sequential run leaves the entries pushed before the failure in
  `results`. The caller then drops the `Runtime`.
- `client/src/main.rs` imports `collect::Labeled`, but the client's
  `collect.rs` does not define it. The runtime uses the orchestrator's
  `Labeled` and `Labeled::average`.

## Model

| member | source | states |
|---|---|---|
| Measure.AsU32 | client/src/collect.rs:43-52 | the `times as u32` divisor is below 2^32, differs from `times` by a multiple of 2^32, and equals `times` whenever `times` fits in 32 bits |
| OrchestratorCollect.FoldTotals | orchestrator/src/collect.rs:15-37 | after the fold, each required field is the start value plus the sum over the series; an optional field is start plus sum if the accumulator and every response have it, else absent |
| OrchestratorCollect.FoldKeepsNone | orchestrator/src/collect.rs:16-30 | once the accumulator's optional field is absent, it stays absent whatever later responses hold |
| OrchestratorCollect.Average | orchestrator/src/collect.rs:6-52 | each required field is (sum over items) / `times as u32`, truncating; each optional field is present with sum / divisor iff every item has it; requires a non-zero divisor |
| OrchestratorCollect.NullPropagates | orchestrator/src/collect.rs:16-30 | one item without DNS lookup (or TLS handshake) makes that field of the average absent |
| OrchestratorCollect.PresentAverages | orchestrator/src/collect.rs:39-45 | when every item has the optional field and `0 < times < 2^32`, the average is Some(sum / times) |
| OrchestratorCollect.EmptyAverage | orchestrator/src/collect.rs:7-49 | an empty series gives Some(0), Some(0) for the optional fields and 0 for the required ones |
| OrchestratorCollect.SingleAverage | orchestrator/src/collect.rs:39-49 | one response averaged with `times = 1` is that response |
| OrchestratorCollect.NewDeref | orchestrator/src/collect.rs:66-80 | `Labeled::new(inner, label)` keeps the label, and `deref` returns exactly `inner` |
| OrchestratorCollect.DerefMutDeref | orchestrator/src/collect.rs:83-86 | a write through `deref_mut` is what `deref` then returns, and the label is unchanged |
| OrchestratorCollect.LabeledAverageIgnoresLabels | orchestrator/src/collect.rs:70-72 | `Labeled::average` depends only on the inner responses: series that differ only in labels average the same |
| ClientCollect.FoldTotals | client/src/collect.rs:16-40 | the client fold sums the required durations, keeps an optional sum only while every response has it, and keeps the empty address |
| ClientCollect.FoldKeepsNone | client/src/collect.rs:18-33 | once the accumulator's optional duration is absent, it stays absent for the rest of the fold |
| ClientCollect.Average | client/src/collect.rs:3-55 | `ip` is ""; required durations are sum / `times as u32`, truncating; optional ones are present with sum / divisor iff every item has them; requires a non-zero divisor |
| ClientCollect.NullPropagates | client/src/collect.rs:17-33 | one item without DNS lookup (or TLS handshake) makes that duration of the average absent |
| ClientCollect.EmptyAverage | client/src/collect.rs:7-52 | no items give Some(0), Some(0), zeros and the empty address |
| ClientCollect.SingleAverage | client/src/collect.rs:13-52 | one item with `times = 1` keeps its five durations, and the address becomes "" |
| ClientCollect.AgreesWithOrchestrator | client/src/collect.rs:3-55 | on the same durations and `times`, the client and orchestrator averages agree on all five durations |
| ClientMain.ParseNatToString | client/src/main.rs:116 | the decimal label `i.to_string()` reads back as `i` |
| ClientMain.NatToStringDigits | client/src/main.rs:116 | a sequential label is a non-empty run of decimal digits that starts with 0 only for attempt 0 |
| ClientMain.NumberLabelsDistinct | client/src/main.rs:116 | distinct attempts get distinct labels, and none of them is "flood" or "average" |
| ClientMain.FirstFailure | client/src/main.rs:111-114 | the index of the first failed attempt: absent iff every attempt succeeds, otherwise a failure preceded only by successes |
| ClientMain.Completed | client/src/main.rs:111-121 | the number of attempts sequential mode completes: at most `times`, all of them successes, and followed by a failure when fewer than `times` |
| ClientMain.CompletedAt | client/src/main.rs:111-121 | sequential mode stops exactly at the first failure: a failure at k preceded only by successes means k attempts completed |
| ClientMain.SuccessCount | client/src/main.rs:93-108 | the kept responses number `times` minus the failed attempts |
| ClientMain.SuccessesInOrder | client/src/main.rs:83-109 | a successful attempt i sits in the kept responses just after the successes of the attempts before it (submission order) |
| ClientMain.AllSuccesses | client/src/main.rs:111-119 | with no failure, the kept responses are all responses in attempt order |
| ClientMain.SequentialAllSucceed | client/src/main.rs:111-121 | sequential mode with every attempt successful appends exactly `times` entries; entry i is response i labelled `i.to_string()`, and `times` probes are issued |
| ClientMain.SequentialFailFast | client/src/main.rs:111-130 | a first failure at attempt k returns that error, issues k + 1 probes, keeps the entries before the run and adds exactly the k earlier responses, entry j labelled `j.to_string()`, and appends no average |
| ClientMain.FloodKeepsSuccesses | client/src/main.rs:83-109 | flood mode never returns a probe error; it issues `times` probes and appends `times` minus the failures, each success at its submission position, labelled "flood" |
| ClientMain.AverageAppendedLast | client/src/main.rs:124-130 | with `average` set, exactly one entry labelled "average" is appended last; it is the average of all earlier entries with divisor `times as u32`, even after flood drops |
| ClientMain.NoAverageOnlyProbes | client/src/main.rs:124-130 | with `average` unset nothing is appended after the probes; every new entry is labelled "flood" (flood mode) or with its attempt number, never "average" |
| ClientMain.Runtime.constructor | client/src/main.rs:53-57 | a fresh `Runtime` has no results |
| ClientMain.Runtime.Flood | client/src/main.rs:83-109 | `results` gains the successful responses, in submission order, each labelled "flood"; failures add nothing |
| ClientMain.Runtime.Sequential | client/src/main.rs:111-121 | stops at the first failure; `results` gains response i labelled `i.to_string()` for each attempt completed before it |
| ClientMain.Runtime.Run | client/src/main.rs:63-130 | the new `results`, the returned status and the issued probe count are those of `RunSpec` on the old results, the arguments and the outcomes |

## Left out

- The network. The `reqwest` client build (its `?` at client/src/main.rs:75-76), `send` and the JSON decoding are not modelled, and neither is `tokio::spawn` with its join errors. Every attempt's result is an input `Outcome`. A join error and a network error are both a `Failure`, which flood mode drops in the same way.
- `FuturesOrdered` scheduling and concurrency. Only the order in which results are read back is modelled, which is submission order.
- The `tokio::time::sleep` of `delay` milliseconds after each sequential probe. Wall-clock time is not modelled.
- Console output (`Labeled::print`, `println!`) and writing `results` as JSON to the output file (client/src/main.rs:132-139, including its I/O errors). These are I/O through serde and `std::fs`.
- Argument parsing with `clap`, `main`, and `Runtime::start`, which only calls `run`. `Args` keeps only `average`, `times` and `flood`.
- Overflow of `Duration` addition, which panics in Rust. Durations are unbounded naturals. The split into whole seconds and nanoseconds is not modelled either.
- measure/src/main.rs (the agent's HTTP server and the `ttfb` call), the `From<TtfbOutcome>` and `IntoResponse` conversions in measure/src/types.rs, client/src/jobs.rs, and the deployment scripts under ts/src. They are I/O or wrappers over foreign libraries.
