/**
 * The asynchronous side: the scanner's request queue, the three dispatchers
 * that fill it, and ProbeOrSkip, which gates probing and dispatches every
 * target. The per-target tasks run one after another here; the lemmas of
 * DispatchCounts state the queue's contents as counts, which do not depend
 * on that order.
 */
module Dispatch {
  import opened Config

  /** A request handed to the send engine, tagged with its target. */
  datatype Request =
    | Icmp(target: string, kind: IcmpKind)
    | Tcp(target: string, port: Port, flag: TcpFlag)

  /** The requests one TCP dispatcher enqueues: one per port, in port order. */
  function TcpRequests(ip: string, ports: seq<Port>, flag: TcpFlag): seq<Request>
  {
    if ports == [] then []
    else TcpRequests(ip, ports[..|ports| - 1], flag) + [Tcp(ip, ports[|ports| - 1], flag)]
  }

  /** Everything one target's task enqueues: echo, timestamp, SYNs, ACKs. */
  function TargetRequests(ip: string, syn: seq<Port>, ack: seq<Port>): seq<Request>
  {
    [Icmp(ip, EchoRequest), Icmp(ip, TimestampRequest)]
      + TcpRequests(ip, syn, Syn) + TcpRequests(ip, ack, Ack)
  }

  /** The requests of all targets, with the tasks run in target order. */
  function DispatchAll(targets: seq<string>, syn: seq<Port>, ack: seq<Port>): seq<Request>
  {
    if targets == [] then []
    else
      DispatchAll(targets[..|targets| - 1], syn, ack)
        + TargetRequests(targets[|targets| - 1], syn, ack)
  }

  /** The limiter's interval in nanoseconds: one second divided by the rate. */
  function TickInterval(rate: int): (d: int)
    requires 0 < rate
    ensures 0 <= d && d * rate <= NanosPerSecond < (d + 1) * rate
    ensures 0 < d <==> rate <= NanosPerSecond
  {
    NanosPerSecond / rate
  }

  /**
   * The times of the limiter's first n ticks, in nanoseconds after it was
   * created: the first comes one interval in, and each later one exactly one
   * interval after its predecessor.
   */
  function Ticks(n: nat, interval: int): (ts: seq<int>)
    ensures |ts| == n
    ensures n > 0 ==> ts[0] == interval
    ensures forall k :: 0 < k < n ==> ts[k] == ts[k - 1] + interval
  {
    if n == 0 then []
    else
      var earlier := Ticks(n - 1, interval);
      earlier + [(if n == 1 then 0 else earlier[n - 2]) + interval]
  }

  /** Tick k (counting from 0) comes k + 1 intervals after the limiter was created. */
  lemma {:induction false} TickAt(n: nat, interval: int, k: nat)
    requires k < n
    ensures Ticks(n, interval)[k] == (k + 1) * interval
  {
    if k < n - 1 {
      TickAt(n - 1, interval, k);
    } else if k > 0 {
      TickAt(n - 1, interval, k - 1);
      assert k * interval + interval == (k + 1) * interval;
    }
  }

  /** The scanner's state as this core sees it. */
  class Scanner {
    var State: Phase
    var Targets: seq<string>
    var SynProbesPorts: seq<Port>
    var AckProbesPorts: seq<Port>
    var queue: seq<Request>

    constructor (targets: seq<string>, syn: seq<Port>, ack: seq<Port>)
      ensures State == Init && queue == []
      ensures Targets == targets && SynProbesPorts == syn && AckProbesPorts == ack
    {
      State := Init;
      Targets := targets;
      SynProbesPorts := syn;
      AckProbesPorts := ack;
      queue := [];
    }

    method EnqueueICMP(ip: string, kind: IcmpKind)
      modifies this`queue
      ensures queue == old(queue) + [Icmp(ip, kind)]
    {
      queue := queue + [Icmp(ip, kind)];
    }

    method EnqueueTCP(ip: string, port: Port, flag: TcpFlag)
      modifies this`queue
      ensures queue == old(queue) + [Tcp(ip, port, flag)]
    {
      queue := queue + [Tcp(ip, port, flag)];
    }
  }

  /** The runner: its options and the scanner it drives. */
  class Runner {
    const options: Options
    const scanner: Scanner

    constructor (options: Options, scanner: Scanner)
      ensures this.options == options && this.scanner == scanner
    {
      this.options := options;
      this.scanner := scanner;
    }

    /** pingprobesasync: an echo request, then a timestamp request, whatever the ICMP options say. */
    method PingProbesAsync(ip: string)
      modifies scanner`queue
      ensures scanner.queue == old(scanner.queue) + [Icmp(ip, EchoRequest), Icmp(ip, TimestampRequest)]
    {
      scanner.EnqueueICMP(ip, EchoRequest);
      scanner.EnqueueICMP(ip, TimestampRequest);
    }

    /** synprobesasync: one SYN request per SYN-probe port. */
    method SynProbesAsync(ip: string)
      modifies scanner`queue
      ensures scanner.queue == old(scanner.queue) + TcpRequests(ip, scanner.SynProbesPorts, Syn)
    {
      var ports := scanner.SynProbesPorts;
      for i := 0 to |ports|
        invariant scanner.queue == old(scanner.queue) + TcpRequests(ip, ports[..i], Syn)
      {
        scanner.EnqueueTCP(ip, ports[i], Syn);
        assert ports[..i + 1][..i] == ports[..i];
      }
      assert ports[..|ports|] == ports;
    }

    /** ackprobesasync: one ACK request per ACK-probe port. */
    method AckProbesAsync(ip: string)
      modifies scanner`queue
      ensures scanner.queue == old(scanner.queue) + TcpRequests(ip, scanner.AckProbesPorts, Ack)
    {
      var ports := scanner.AckProbesPorts;
      for i := 0 to |ports|
        invariant scanner.queue == old(scanner.queue) + TcpRequests(ip, ports[..i], Ack)
      {
        scanner.EnqueueTCP(ip, ports[i], Ack);
        assert ports[..i + 1][..i] == ports[..i];
      }
      assert ports[..|ports|] == ports;
    }

    /** The body of one target's task: the three dispatchers in turn. */
    method DispatchTarget(ip: string)
      modifies scanner`queue
      ensures scanner.queue
        == old(scanner.queue) + TargetRequests(ip, scanner.SynProbesPorts, scanner.AckProbesPorts)
    {
      PingProbesAsync(ip);
      SynProbesAsync(ip);
      AckProbesAsync(ip);
    }

    /**
     * The fan-out of ProbeOrSkip, one task per target in target order: each
     * task starts at the next tick of a limiter with the given interval,
     * and `starts` records those tick times.
     */
    method StartTasks(targets: seq<string>, interval: int) returns (starts: seq<int>)
      requires targets != [] ==> 0 < interval
      modifies scanner`queue
      ensures scanner.queue
        == old(scanner.queue) + DispatchAll(targets, scanner.SynProbesPorts, scanner.AckProbesPorts)
      ensures starts == Ticks(|targets|, interval)
    {
      var syn, ack := scanner.SynProbesPorts, scanner.AckProbesPorts;
      starts := [];
      var clock := 0;
      for i := 0 to |targets|
        invariant scanner.queue == old(scanner.queue) + DispatchAll(targets[..i], syn, ack)
        invariant starts == Ticks(i, interval)
        invariant clock == if i == 0 then 0 else starts[i - 1]
      {
        clock := clock + interval;  // wait for the next tick
        starts := starts + [clock];
        DispatchTarget(targets[i]);
        assert targets[..i + 1][..i] == targets[..i];
      }
      assert targets[..|targets|] == targets;
    }

    /**
     * ProbeOrSkip: mark the Probe phase; stop there when probing is switched
     * off or the process is not root; otherwise start one task per target,
     * each after a limiter tick. `starts` holds the tick times in nanoseconds
     * after the limiter was created (the control loop itself is taken to
     * cost no time). A zero rate makes the interval a division by zero, and
     * an interval that is not positive gives no limiter at all, so waiting
     * for a tick would never end.
     */
    method ProbeOrSkip(isRoot: bool) returns (starts: seq<int>)
      requires options.noProbe || !isRoot
        || (options.rate != 0 && (scanner.Targets == [] || 0 < options.rate <= NanosPerSecond))
      modifies scanner`State, scanner`queue
      ensures scanner.State == Probe
      ensures scanner.Targets == old(scanner.Targets)
      ensures scanner.SynProbesPorts == old(scanner.SynProbesPorts)
      ensures scanner.AckProbesPorts == old(scanner.AckProbesPorts)
      ensures options.noProbe || !isRoot ==> scanner.queue == old(scanner.queue) && starts == []
      ensures !options.noProbe && isRoot ==>
        scanner.queue == old(scanner.queue)
          + DispatchAll(scanner.Targets, scanner.SynProbesPorts, scanner.AckProbesPorts)
      ensures !options.noProbe && isRoot && scanner.Targets != [] ==>
        0 < options.rate && starts == Ticks(|scanner.Targets|, TickInterval(options.rate))
      ensures scanner.Targets == [] ==> starts == []
    {
      scanner.State := Probe;
      if options.noProbe {
        return [];
      }
      if !isRoot {
        return [];
      }
      var targets := scanner.Targets;
      var interval := if targets == [] then 0 else TickInterval(options.rate);
      starts := StartTasks(targets, interval);
    }
  }
}
