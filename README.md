# Host-liveness probes of the naabu port scanner, modelled in Dafny

Before it scans ports, naabu can check which targets are up. `pkg/runner/probe.go`
holds that logic:

- a classifier that decides whether a failed TCP connect still proves the
  host is alive (it refused the connection);
- three synchronous evaluators (ICMP, TCP SYN, TCP ACK), each of which returns a
  liveness verdict for one target;
- three asynchronous dispatchers, which put ICMP and TCP probe requests on the
  scanner's send queue;
- `ProbeOrSkip`, which marks the scanner's Probe phase. It then either skips
  probing or dispatches every target, one limiter tick apart.

The model has five modules:

- `Config` (config.dfy): options, ports, request kinds and the phase enum.
- `Refusal` (refusal.dfy): the classifier over an explicit error datatype.
- `SyncProbes` (sync_probes.dfy): the three evaluators. The network probes are
  oracle parameters.
- `Dispatch` (dispatch.dfy): the `Scanner` and `Runner` classes, the dispatchers
  and `ProbeOrSkip`. The scanner's queue is a `seq<Request>` field that the
  methods extend.
- `DispatchCounts` (dispatch_counts.dfy): lemmas that give the queue's contents
  as counts. Counts do not depend on the order in which targets and ports are
  iterated.

In the ICMP evaluator the verdict is already true when echo is disabled, so the
lazy `||` on line 19 of `pkg/runner/probe.go` never sends the timestamp probe in
that case. The timestamp probe goes out only when it is enabled, echo is enabled
and echo failed. `SyncProbes.PingProbes` states this.

## Model

| member | source | states |
|---|---|---|
| `Refusal.HasRefusedConnection` | pkg/runner/probe.go:63-94 | A nil error is never a refusal. An error whose Timeout() is true is never a refusal, even a read-stage OpError. For the rest: an OpError is a refusal exactly when its op is "read", and an errno exactly when it is ECONNREFUSED. Any other error shape is not a refusal. |
| `SyncProbes.PingProbes` | pkg/runner/probe.go:12-23 | The verdict is `!echoEnabled \|\| echoOk \|\| (timestampEnabled && timestampOk)`, so it is true with both probes disabled. The echo probe is sent exactly when enabled. The timestamp probe is sent exactly when it is enabled, echo is enabled and echo failed. At most two probes are sent, echo first. |
| `SyncProbes.SynProbes` | pkg/runner/probe.go:30-39 | The verdict is true iff some port's connect succeeded or was refused. The ports tried are a prefix of the port list. Every tried port but the last neither succeeded nor was refused. When the verdict is true, the last tried port succeeded or was refused, so no port after it is tried. A false verdict means every port was tried. An empty port list gives false. |
| `SyncProbes.AckProbes` | pkg/runner/probe.go:47-55 | The verdict is true iff some port's ACK probe is ok with a nil error. A reply that is ok but carries an error does not count. The early stop and the prefix of tried ports are as for SYN. An empty port list gives false. |
| `Dispatch.Runner.PingProbesAsync` | pkg/runner/probe.go:25-28 | Appends exactly an echo request and then a timestamp request for the target. The ICMP options are not consulted. |
| `Dispatch.Runner.SynProbesAsync` | pkg/runner/probe.go:41-45 | Appends exactly one SYN request per SYN-probe port, in iteration order, and nothing else. |
| `Dispatch.Runner.AckProbesAsync` | pkg/runner/probe.go:57-61 | Appends exactly one ACK request per ACK-probe port, in iteration order, and nothing else. |
| `Dispatch.Runner.DispatchTarget` | pkg/runner/probe.go:111-116 | One target's task appends its ICMP requests, then its SYN requests, then its ACK requests. |
| `Dispatch.Runner.StartTasks` | pkg/runner/probe.go:106-118 | Runs the tasks of all targets in target order. Task i starts at tick i+1 of the limiter. |
| `Dispatch.Runner.ProbeOrSkip` | pkg/runner/probe.go:96-119 | Always sets the phase to Probe. With NoProbe, or without root, the queue is unchanged and no task starts. Otherwise it appends every target's requests and starts one task per target, one limiter interval apart. Targets and both port lists are left unchanged. |
| `Dispatch.TickInterval` | pkg/runner/probe.go:107 | The limiter interval is one second divided by the rate, rounded down, in nanoseconds. It is positive exactly when the rate is at most 10^9. |
| `Dispatch.Ticks` | pkg/runner/probe.go:107-109 | The first tick comes one interval after the limiter starts. Each later tick comes exactly one interval after the one before. |
| `Dispatch.TickAt` | pkg/runner/probe.go:107-109 | Tick k (counting from 0) comes exactly (k + 1) intervals after the limiter starts. |
| `DispatchCounts.TcpRequestsAt` | pkg/runner/probe.go:41-45 | The i-th request of a TCP dispatcher is for the i-th port, with the dispatcher's flag. |
| `DispatchCounts.TcpRequestsCount` | pkg/runner/probe.go:57-61 | A TCP dispatcher enqueues each (target, port, flag) once per occurrence of the port, and no other request. |
| `DispatchCounts.IcmpCount` | pkg/runner/probe.go:26-27 | The ICMP dispatcher enqueues each of the two ICMP requests for its target exactly once. |
| `DispatchCounts.TargetRequestsCount` | pkg/runner/probe.go:113-115 | One target's task enqueues, for that target only, one echo request and one timestamp request. It also enqueues one SYN request per SYN port and one ACK request per ACK port. |
| `DispatchCounts.DispatchAllCount` | pkg/runner/probe.go:108-117 | Across all targets, a request is enqueued (occurrences of its target) × (its count within one task) times. So no request is ever enqueued for a host outside the target set. |
| `DispatchCounts.DispatchOrderIndependent` | pkg/runner/probe.go:108 | The multiset of enqueued requests does not depend on the iteration order of the targets or of either port set. |
| `DispatchCounts.RequestsForTarget` | pkg/runner/probe.go:111-116 | One target's task enqueues 2 + (SYN ports) + (ACK ports) requests, all for that target. |
| `DispatchCounts.RequestsPerTarget` | pkg/runner/probe.go:108-117 | After dispatch, each target has exactly 2 + (SYN ports) + (ACK ports) requests per occurrence in the target set. |

## Left out

- The network calls `scan.PingIcmpEchoRequest`, `scan.PingIcmpTimestampRequest`, `scan.ConnectPort` and `Scanner.ACKPort` send raw packets. They are oracle parameters: two booleans for the ICMP replies, and two functions from (target, port) to (ok, error). The configured timeout they receive is carried in `Options` but not modelled.
- Go's error types (`net.Error`, `*net.OpError`, `syscall.Errno`) are library types. They become the `NetError` datatype, and each shape carries its `Timeout()` answer as a flag. In Go an errno's `Timeout()` depends only on its code (and is false for ECONNREFUSED). The model leaves the flag free, which covers every case Go can produce.
- `Dispatch.Runner.ProbeOrSkip` requires a non-zero rate when it probes, because line 107 divides by `Rate` and a zero rate panics. With at least one target it requires 1 <= rate <= 10^9: otherwise the quotient is not positive, `time.Tick` returns nil and the receive on line 109 blocks forever. Those panicking and non-terminating runs are not modelled.
- `ECONNREFUSED` is Linux's value, 111. The model only compares against it.
- `isRoot()` is an OS privilege query. It is the `isRoot` parameter of `ProbeOrSkip`.
- Concurrency: the goroutine per target and the `sync.WaitGroup` join. The tasks run one after another in target order. How requests from different targets interleave in the real queue is not modelled. The `DispatchCounts` lemmas state the queue's contents as counts, which hold for any interleaving.
- Go map iteration order over `Targets`, `SynProbesPorts` and `AckProbesPorts` is nondeterministic. The model takes each as a sequence in some order. The verdicts are stated by membership, and the queue's contents by multiset counts, so neither depends on that order.
- Time: `time.Tick` is modelled as a logical clock in nanoseconds. The control loop is taken to cost no time, so task i starts exactly at tick i+1. Ticks the Go ticker drops for a slow receiver are not modelled.
- The scanner's send engine, which consumes the queue, is not part of this model. The scan package defines the phase enum and is not part of this model either. `Phase` lists Probe and stand-ins for the other phases. This core only writes Probe.
- The synchronous evaluators take the target and the port list as parameters instead of reading them from the runner. Nothing in them changes state.
