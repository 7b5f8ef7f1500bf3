/**
 * The synchronous evaluators: each decides one target's liveness from the
 * replies of blocking network probes. The probes themselves are oracles
 * passed in as parameters.
 */
module SyncProbes {
  import opened Config
  import opened Refusal

  /** What a blocking connect or raw ACK probe returns: (ok, err). */
  datatype Reply = Reply(ok: bool, err: NetError)

  /** The ICMP evaluator's verdict together with the probes it actually sent. */
  datatype PingOutcome = PingOutcome(alive: bool, sent: seq<IcmpKind>)

  /**
   * pingprobes: the verdict starts true, is AND-ed with the echo reply when
   * echo is enabled and OR-ed with the timestamp reply when timestamp is
   * enabled. The OR is lazy, so the timestamp probe goes out only when the
   * verdict is false at that point. `echoReply` and `timestampReply` are what
   * the two probes would report for the target.
   */
  function PingProbes(opts: Options, echoReply: bool, timestampReply: bool): (o: PingOutcome)
    ensures o.alive == (!opts.icmpEchoProbe || echoReply || (opts.icmpTimestampProbe && timestampReply))
    ensures !opts.icmpEchoProbe && !opts.icmpTimestampProbe ==> o.alive
    ensures (EchoRequest in o.sent) <==> opts.icmpEchoProbe
    ensures (TimestampRequest in o.sent) <==> opts.icmpTimestampProbe && opts.icmpEchoProbe && !echoReply
    ensures |o.sent| <= 2 && (|o.sent| == 2 ==> o.sent == [EchoRequest, TimestampRequest])
  {
    var afterEcho :=
      if opts.icmpEchoProbe then PingOutcome(true && echoReply, [EchoRequest])
      else PingOutcome(true, []);
    if opts.icmpTimestampProbe then
      if afterEcho.alive then afterEcho
      else PingOutcome(timestampReply, afterEcho.sent + [TimestampRequest])
    else afterEcho
  }

  /** A SYN probe proves liveness when the connect succeeded or was refused. */
  predicate SynHit(r: Reply) {
    r.ok || HasRefusedConnection(r.err)
  }

  /** An ACK probe proves liveness only when it is ok and carries no error. */
  predicate AckHit(r: Reply) {
    r.ok && r.err == Nil
  }

  /**
   * synprobes: try the ports in iteration order and stop at the first one
   * whose connect succeeds or is refused. `attempted` lists the ports
   * actually connected to, in order.
   */
  method SynProbes(ip: string, ports: seq<Port>, connect: (string, Port) -> Reply)
    returns (alive: bool, attempted: seq<Port>)
    ensures alive <==> exists p :: p in ports && SynHit(connect(ip, p))
    ensures |attempted| <= |ports| && attempted == ports[..|attempted|]
    ensures forall i :: 0 <= i < |attempted| - 1 ==> !SynHit(connect(ip, attempted[i]))
    ensures alive ==> |attempted| > 0 && SynHit(connect(ip, attempted[|attempted| - 1]))
    ensures !alive ==> attempted == ports
  {
    attempted := [];
    var i := 0;
    while i < |ports|
      invariant 0 <= i <= |ports|
      invariant attempted == ports[..i]
      invariant forall j :: 0 <= j < i ==> !SynHit(connect(ip, ports[j]))
    {
      var reply := connect(ip, ports[i]);
      attempted := attempted + [ports[i]];
      if reply.ok || HasRefusedConnection(reply.err) {
        var hit := ports[i];
        assert hit in ports && SynHit(connect(ip, hit));
        return true, attempted;
      }
      i := i + 1;
    }
    return false, attempted;
  }

  /**
   * ackprobes: try the ports in iteration order and stop at the first one
   * whose raw ACK probe is ok with no error. A reply that is ok but carries
   * an error does not count.
   */
  method AckProbes(ip: string, ports: seq<Port>, ackPort: (string, Port) -> Reply)
    returns (alive: bool, attempted: seq<Port>)
    ensures alive <==> exists p :: p in ports && AckHit(ackPort(ip, p))
    ensures |attempted| <= |ports| && attempted == ports[..|attempted|]
    ensures forall i :: 0 <= i < |attempted| - 1 ==> !AckHit(ackPort(ip, attempted[i]))
    ensures alive ==> |attempted| > 0 && AckHit(ackPort(ip, attempted[|attempted| - 1]))
    ensures !alive ==> attempted == ports
  {
    attempted := [];
    var i := 0;
    while i < |ports|
      invariant 0 <= i <= |ports|
      invariant attempted == ports[..i]
      invariant forall j :: 0 <= j < i ==> !AckHit(ackPort(ip, ports[j]))
    {
      var reply := ackPort(ip, ports[i]);
      attempted := attempted + [ports[i]];
      if reply.ok && reply.err == Nil {
        var hit := ports[i];
        assert hit in ports && AckHit(ackPort(ip, hit));
        return true, attempted;
      }
      i := i + 1;
    }
    return false, attempted;
  }
}
