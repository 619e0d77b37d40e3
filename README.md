# DeepFFM worker: cluster layout, training-loop schedule, signal exit codes

This project models the parts of the DeepFFM distributed training worker
(`tools/worker.py`) that the script itself decides. Everything else is
delegated to the numeric framework. The three parts are:

- **Cluster layout** (`cluster_spec`). It builds a map from job name to
  endpoints. `"ps"` gets `len(range(num_ps))` endpoints and `"worker"` gets
  `len(range(num_workers))` endpoints (none for a negative count). Every endpoint is `"127.0.0.1:<port>"`. Ports come from one
  counter that starts at 12222, and parameter servers take theirs first. The
  method `Cluster.ClusterSpec` keeps the source's loops, counter and appends.
  It is proved against the predicate `IsClusterSpec`. Lemmas then derive the
  port of every endpoint, their distinctness and the ps-before-worker order.
  They read endpoints back through a reference parser, `ParseEndpoint`. The
  decimal port text is produced by a verified formatter, `Decimal.NatToDecimal`.
- **Training-loop schedule** (`train`, lines 80-120). Each framework call is
  an opaque step whose outcome comes from the environment, a sequence of
  `Tick`s. For local step
  k, a tick gives:
  - the supervisor's `should_stop` answer;
  - how the train block went: it completed; its `sess.run` raised
    `OutOfRangeError` or another exception; or the run went through and the
    metric or summary code after it raised;
  - the global step that block fetched;
  - how the test block went.

  Steps past the end of the tick sequence find the train input exhausted. This
  models the finite `num_epochs` input, which is what makes the loop end.
  `TrainLoop.TrainingSession` holds the state the loop changes in place:
  - which input triple the model is bound to;
  - the two summary writers;
  - the supervisor;
  - a trace of abstract events.

  `Train`, `RunLoop`, `RunStep`, `TrainBlock` and `TestBlock` are proved
  against the specification functions
  `Outcome`, `IterationEvents`, `Events` and `FirstEnd`. Lemmas about those
  functions state the schedule.
- **Signal exit code** (`shutdown`). On SIGHUP, SIGINT and SIGTERM,
  `shutdown` calls `sys.exit(128 + signal)`, so the exit status is 128 + the
  signal number.

Two behaviours of the code are modelled as written:

- If the test block raises (`OutOfRangeError` or any other exception),
  line 109 is skipped. The model is then left bound to the test triple when
  the `finally` block runs. `Train`'s postcondition says so.
- The train summary at a non-detailed step is labelled with the global step
  fetched by the last detailed step. That is step `k - k % 10`, because
  `global_step` is only refreshed at line 86. `SummaryTag` and `RunStep`
  state this.

Signal numbers are the Linux values (SIGHUP 1, SIGINT 2, SIGTERM 15).

## Model

| member | source | states |
|---|---|---|
| `Decimal.NatToDecimal` | tools/worker.py:130 | the port text `'{}'.format(port)` is non-empty, all decimal digits, and has no leading zero unless the port is 0 |
| `Decimal.ParseNatToDecimal` | tools/worker.py:130 | reading the decimal text of a port back gives the same port (round trip) |
| `Decimal.NatToDecimalInjective` | tools/worker.py:130 | two ports with the same decimal text are equal |
| `Cluster.ParseFormatEndpoint` | tools/worker.py:130 | an endpoint `host:port`, with a host that has no colon, parses back to that exact host and port |
| `Cluster.ParseEndpointAt` | tools/worker.py:128-130 | every endpoint built for a port has host `127.0.0.1` and reads back as that port |
| `Cluster.ClusterSpec` | tools/worker.py:122-139 | the result has exactly the keys `ps` and `worker`; `ps` holds `len(range(num_ps))` endpoints on ports 12222 + i; `worker` holds `len(range(num_workers))` endpoints on ports 12222 + len(range(num_ps)) + j (negative counts give empty lists) |
| `Cluster.ConsecutiveEndpointsParse` | tools/worker.py:128-137 | a list of endpoints written on consecutive ports from one counter reads back, position by position, as those ports on `127.0.0.1` |
| `Cluster.ClusterSpecDeterministic` | tools/worker.py:122-139 | the layout is fully determined by the two counts |
| `Cluster.ClusterPortsConsecutive` | tools/worker.py:125-137 | the k-th endpoint, counting ps first, is `127.0.0.1` with port 12222 + k; there are len(range(num_ps)) + len(range(num_workers)) endpoints |
| `Cluster.ClusterJobPorts` | tools/worker.py:125-137 | the i-th ps endpoint has port 12222 + i and the j-th worker endpoint has port 12222 + len(range(num_ps)) + j |
| `Cluster.PsPortsBelowWorkerPorts` | tools/worker.py:129-137 | every ps port is below every worker port |
| `Cluster.ClusterEndpointsDistinct` | tools/worker.py:129-137 | no two endpoints of the cluster are equal, within a job or across jobs |
| `Cluster.BaseEndpointText` | tools/worker.py:125-130 | the first endpoint handed out is the text `127.0.0.1:12222` |
| `Cluster.MainClusterLayout` | tools/worker.py:147 | with one parameter server, as `main` asks, `ps` is `["127.0.0.1:12222"]` and worker j is on port 12223 + j |
| `Signals.ExitStatus` | tools/worker.py:152 | the status the parent sees is below 256 and equals the exit code whenever that code fits in eight bits |
| `Signals.OnSignal` | tools/worker.py:150-156 | a handler runs exactly for SIGHUP, SIGINT and SIGTERM; `shutdown` calls `sys.exit(128 + signal)`, so the status is 128 + signal, which lies in 129..255 |
| `Signals.ShutdownStatusNamesSignal` | tools/worker.py:152 | for every signal 1..127 the exit status is 128 + signal, and subtracting 128 recovers the signal |
| `Signals.HandledSignalStatuses` | tools/worker.py:154-156 | SIGHUP, SIGINT and SIGTERM end the process with 129, 130 and 143 |
| `TrainLoop.FirstEnd` | tools/worker.py:82-115 | the loop ends at a step no later than the end of the tick sequence, where the supervisor stops it or a block raises, and every earlier step runs to completion |
| `TrainLoop.StepOutcome` | tools/worker.py:84-112 | a step the supervisor lets run ends with the train run's exit when that run did not complete, completes when it did and 100 does not divide the step, and otherwise ends with the test run's exit or completes; its events and the final binding follow the same cases |
| `TrainLoop.TrainingSession.constructor` | tools/worker.py:41-77 | the model starts bound to the train triple, both writers are open, and the supervisor is running |
| `TrainLoop.TrainingSession.Cleanup` | tools/worker.py:116-120 | the `finally` block stops the supervisor and closes both writers, in that order, and leaves the input binding alone |
| `TrainLoop.TrainingSession.RunStep` | tools/worker.py:84-110 | one loop body records that step's events, which are exactly `IterationEvents`, and reports whether and how the step raised. When it completes, the train triple is bound again and the global step it returns is the summary label for the step. When the test block raised, the test triple stays bound |
| `TrainLoop.TrainingSession.TrainBlock` | tools/worker.py:84-95 | the train block appends the train op, detailed iff step % 10 == 0, as soon as its run goes through, and then the train summary when nothing raised. It raises exactly when the run or the code after it does, with that exit kind. When it completes, the returned global step is the step's summary tag |
| `TrainLoop.TrainingSession.TestBlock` | tools/worker.py:97-109 | the test block binds the test triple, appends the evaluation once its run goes through and the summary tagged with the given global step when nothing raised. It rebinds the train triple only when it completes |
| `TrainLoop.TrainingSession.RunLoop` | tools/worker.py:81-112 | the `try` body runs steps until `FirstEnd`, reports `Outcome`'s exit kind there, and appends exactly the events of those steps |
| `TrainLoop.TrainingSession.Train` | tools/worker.py:78-120 | the loop stops at `FirstEnd` with the exit kind `Outcome` gives (stop, `OutOfRangeError`, other error). The trace is the events of all completed steps, then the partial last step, then the cleanup. Afterwards both writers are closed and the supervisor is stopped, and the model is bound to the train triple unless the test block raised |
| `TrainLoop.SameDecade` | tools/worker.py:84-95 | a non-detailed step's train summary tag equals the tag of the step before it |
| `TrainLoop.IterationFollowsSchedule` | tools/worker.py:84-109 | within one step, the train op runs on the train triple and is detailed iff step % 10 == 0; a test evaluation runs on the test triple, only at step % 100 == 0, and only next to that step's detailed train op |
| `TrainLoop.EventsFollowSchedule` | tools/worker.py:84-109 | across the whole loop, every event keeps that schedule, every test evaluation comes with a detailed train op of the same step, and the loop body itself never closes a writer or stops the supervisor |
| `TrainLoop.CompletedIteration` | tools/worker.py:82-110 | a step that does not end the loop was not stopped and completed its train block; it records exactly the train block's events, followed by the test block's when 100 divides the step |
| `TrainLoop.StepEventsRecorded` | tools/worker.py:84-109 | after a completed step k, the trace up to k holds its train op, detailed iff k % 10 == 0, and, when 100 divides k, its test evaluation |
| `TrainLoop.TestEvalOnlyAtHundreds` | tools/worker.py:97-109 | a test evaluation anywhere in the trace belongs to a step divisible by 100 |
| `TrainLoop.EventsPrefix` | tools/worker.py:82-112 | the loop only appends: the trace after m steps is a prefix of the trace after any later step |
| `TrainLoop.CompletedStepEvents` | tools/worker.py:84-109 | for a completed step k, its train op is in the trace, detailed iff k % 10 == 0, and its test evaluation is in the trace iff k % 100 == 0 |
| `TrainLoop.TrainOpsCountSteps` | tools/worker.py:81-112 | over n completed iterations the train ops belong to steps 0, 1, ..., n-1, one each, whichever branches ran: `step` goes up by exactly one per iteration |
| `TrainLoop.NoCleanupInLoop` | tools/worker.py:82-112 | no supervisor stop and no writer close happens inside the loop |
| `TrainLoop.CleanupExactlyOnce` | tools/worker.py:114-120 | however the loop exits, the final trace holds exactly one of the script's own `sv.stop()` calls and exactly one of its own close calls for each writer, as its last three events |
| `TrainLoop.TrainOpsInRun` | tools/worker.py:112-115 | the number of train ops run equals the returned step count, plus one when the last step's train run went through before the step raised: in the metric or summary code after it, or in the test block |
| `TrainLoop.CompletedStepTrainOp` | tools/worker.py:84-112 | a step that does not end the loop adds exactly one train op, its own |
| `TrainLoop.LastStepTestEval` | tools/worker.py:97-109 | the last step leaves a test evaluation in the trace exactly when it ended in the test block after the test run went through |
| `TrainLoop.EventOrigin` | tools/worker.py:82-112 | every event in the trace was recorded by one of the steps run so far |

## Left out

- TensorFlow graph construction, device placement, `tf.train.Server`, the `Supervisor`, `managed_session` and `sess.run` (lines 36-79, 159-166). They are foreign framework calls; their outcomes come from the `Tick` sequence.
- The parameter-server branch (`server.join()`, line 166) and the `job_name` dispatch. These are distributed concurrency inside the framework.
- The optimizer, the staircase learning-rate decay, and the loss, accuracy and AUC values, including `roc_auc_score` (lines 44-46, 86-87, 101-102). These are floating-point numerics from external libraries. An exception from `roc_auc_score` or `add_summary` is a run that went through and then raised.
- `DeepFFM`, `inputs` and `load_field_range`: the model and input pipeline are not part of this model. Whether rebinding `deepffm.inds/vals/labels` changes the tensors `deepffm.loss` reads depends on `DeepFFM`. The model records only which triple is bound.
- Failures of the two `sess.run` calls before the `try` (lines 78-79). Those would skip the `finally` block. `Train` takes the value read at line 78 as a parameter and models both calls as succeeding.
- Logging, timing (`time.time`), writing summary files, `argparse` flag parsing, `signal.signal` registration and `sys.exit` itself. These are I/O and process plumbing; only the exit-code arithmetic is modelled.
- Cluster.ClusterSpec: the map does not record that the `ps` key was inserted before `worker`. Python dicts keep insertion order, but `map` has none. The ps-first order is captured through the ports instead.
- The order of the metric, logging and timing calls inside one train or test block. A block records its run, then its summary; an exception after the run leaves the run recorded and the summary not.
- TrainLoop.TrainingSession.Cleanup: `sv.stop()` (line 117) is assumed to return. If it raised, the closes at lines 119-120 would be skipped. `train_writer` is also the supervisor's `summary_writer` (line 73), which `Supervisor.stop` itself closes; the model records only the script's own close calls.
