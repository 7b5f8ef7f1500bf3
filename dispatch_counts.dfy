/**
 * What the dispatchers put on the queue, stated as counts. Counts do not
 * depend on the order in which targets and ports are iterated, nor on how
 * the per-target tasks interleave, so these are the claims that hold of
 * the concurrent Go code as well as of the sequential model.
 */
module DispatchCounts {
  import opened Config
  import opened Dispatch

  /** How many copies of request r one target's task enqueues, for r's own target. */
  function PerTarget(r: Request, syn: seq<Port>, ack: seq<Port>): nat {
    match r
    case Icmp(_, _) => 1
    case Tcp(_, p, Syn) => multiset(syn)[p]
    case Tcp(_, p, Ack) => multiset(ack)[p]
  }

  /** The number of requests in rs aimed at target t. */
  function RequestsFor(t: string, rs: seq<Request>): nat {
    if rs == [] then 0
    else RequestsFor(t, rs[..|rs| - 1]) + (if rs[|rs| - 1].target == t then 1 else 0)
  }

  lemma {:induction false} TcpRequestsLength(ip: string, ports: seq<Port>, flag: TcpFlag)
    ensures |TcpRequests(ip, ports, flag)| == |ports|
  {
    if ports != [] {
      TcpRequestsLength(ip, ports[..|ports| - 1], flag);
    }
  }

  /** A TCP dispatcher's i-th request is for the i-th port, so requests follow port order. */
  lemma {:induction false} TcpRequestsAt(ip: string, ports: seq<Port>, flag: TcpFlag, i: int)
    requires 0 <= i < |ports|
    ensures |TcpRequests(ip, ports, flag)| == |ports|
    ensures TcpRequests(ip, ports, flag)[i] == Tcp(ip, ports[i], flag)
  {
    var init := ports[..|ports| - 1];
    TcpRequestsLength(ip, init, flag);
    if i < |init| {
      TcpRequestsAt(ip, init, flag, i);
    }
  }

  /** A TCP dispatcher enqueues each (target, port, flag) once per occurrence of the port, and nothing else. */
  lemma {:induction false} TcpRequestsCount(ip: string, ports: seq<Port>, flag: TcpFlag, r: Request)
    ensures multiset(TcpRequests(ip, ports, flag))[r]
      == if r.Tcp? && r.target == ip && r.flag == flag then multiset(ports)[r.port] else 0
  {
    if ports != [] {
      var init, last := ports[..|ports| - 1], ports[|ports| - 1];
      TcpRequestsCount(ip, init, flag, r);
      assert ports == init + [last];
      assert multiset(ports) == multiset(init) + multiset{last};
    }
  }

  /** pingprobesasync's two requests: each ICMP request for ip exactly once. */
  lemma IcmpCount(ip: string, r: Request)
    ensures multiset([Icmp(ip, EchoRequest), Icmp(ip, TimestampRequest)])[r]
      == if r.Icmp? && r.target == ip then 1 else 0
  {
    var echo, stamp := Icmp(ip, EchoRequest), Icmp(ip, TimestampRequest);
    assert multiset([echo, stamp]) == multiset{echo} + multiset{stamp};
    if r.Icmp? && r.target == ip {
      if r.kind == EchoRequest {
        assert r == echo;
      } else {
        assert r == stamp;
      }
    }
  }

  /** One target's task: each ICMP kind once, each SYN and ACK port as often as it occurs. */
  lemma TargetRequestsCount(ip: string, syn: seq<Port>, ack: seq<Port>, r: Request)
    ensures multiset(TargetRequests(ip, syn, ack))[r]
      == if r.target == ip then PerTarget(r, syn, ack) else 0
  {
    var icmp := [Icmp(ip, EchoRequest), Icmp(ip, TimestampRequest)];
    var synRs, ackRs := TcpRequests(ip, syn, Syn), TcpRequests(ip, ack, Ack);
    assert multiset(TargetRequests(ip, syn, ack))[r]
      == multiset(icmp)[r] + multiset(synRs)[r] + multiset(ackRs)[r];
    IcmpCount(ip, r);
    TcpRequestsCount(ip, syn, Syn, r);
    TcpRequestsCount(ip, ack, Ack, r);
  }

  /** n copies of m, added up one at a time; the count lemmas below use it instead of n * m. */
  function Scaled(n: nat, m: nat): nat {
    if n == 0 then 0 else Scaled(n - 1, m) + m
  }

  lemma {:induction false} ScaledIsProduct(n: nat, m: nat)
    ensures Scaled(n, m) == n * m
  {
    if n > 0 {
      ScaledIsProduct(n - 1, m);
      assert (n - 1) * m + m == n * m;
    }
  }

  /** The two concatenations DispatchAll's last step makes, counted at r. */
  lemma DispatchAllSplit(targets: seq<string>, syn: seq<Port>, ack: seq<Port>, r: Request)
    requires targets != []
    ensures var init, last := targets[..|targets| - 1], targets[|targets| - 1];
      && multiset(targets)[r.target] == multiset(init)[r.target] + (if last == r.target then 1 else 0)
      && multiset(DispatchAll(targets, syn, ack))[r]
        == multiset(DispatchAll(init, syn, ack))[r] + multiset(TargetRequests(last, syn, ack))[r]
  {
    assert targets == targets[..|targets| - 1] + [targets[|targets| - 1]];
  }

  lemma {:induction false} DispatchAllScaled(targets: seq<string>, syn: seq<Port>, ack: seq<Port>, r: Request)
    ensures multiset(DispatchAll(targets, syn, ack))[r] == Scaled(multiset(targets)[r.target], PerTarget(r, syn, ack))
  {
    if targets != [] {
      var init, last := targets[..|targets| - 1], targets[|targets| - 1];
      DispatchAllSplit(targets, syn, ack, r);
      DispatchAllScaled(init, syn, ack, r);
      TargetRequestsCount(last, syn, ack, r);
    }
  }

  /**
   * All targets together: a request is enqueued once per occurrence of its
   * target times its count within one task. In particular a request for a
   * host outside the target set is never enqueued.
   */
  lemma DispatchAllCount(targets: seq<string>, syn: seq<Port>, ack: seq<Port>, r: Request)
    ensures multiset(DispatchAll(targets, syn, ack))[r] == multiset(targets)[r.target] * PerTarget(r, syn, ack)
  {
    DispatchAllScaled(targets, syn, ack, r);
    ScaledIsProduct(multiset(targets)[r.target], PerTarget(r, syn, ack));
  }

  /** The queue's contents do not depend on the iteration order of targets or ports. */
  lemma DispatchOrderIndependent(
    targets: seq<string>, targets': seq<string>,
    syn: seq<Port>, syn': seq<Port>,
    ack: seq<Port>, ack': seq<Port>)
    requires multiset(targets) == multiset(targets')
    requires multiset(syn) == multiset(syn') && multiset(ack) == multiset(ack')
    ensures multiset(DispatchAll(targets, syn, ack)) == multiset(DispatchAll(targets', syn', ack'))
  {
    forall r: Request
      ensures multiset(DispatchAll(targets, syn, ack))[r] == multiset(DispatchAll(targets', syn', ack'))[r]
    {
      DispatchAllCount(targets, syn, ack, r);
      DispatchAllCount(targets', syn', ack', r);
    }
  }

  lemma {:induction false} RequestsForConcat(t: string, a: seq<Request>, b: seq<Request>)
    ensures RequestsFor(t, a + b) == RequestsFor(t, a) + RequestsFor(t, b)
  {
    if b != [] {
      RequestsForConcat(t, a, b[..|b| - 1]);
      assert (a + b)[..|a + b| - 1] == a + b[..|b| - 1];
    } else {
      assert a + b == a;
    }
  }

  lemma {:induction false} RequestsForTcp(t: string, ip: string, ports: seq<Port>, flag: TcpFlag)
    ensures RequestsFor(t, TcpRequests(ip, ports, flag)) == if t == ip then |ports| else 0
  {
    if ports != [] {
      var init := ports[..|ports| - 1];
      RequestsForTcp(t, ip, init, flag);
      RequestsForConcat(t, TcpRequests(ip, init, flag), [Tcp(ip, ports[|ports| - 1], flag)]);
    }
  }

  /** One target's task enqueues 2 + |syn| + |ack| requests, all for that target. */
  lemma RequestsForTarget(t: string, ip: string, syn: seq<Port>, ack: seq<Port>)
    ensures RequestsFor(t, TargetRequests(ip, syn, ack)) == if t == ip then 2 + |syn| + |ack| else 0
  {
    var icmp := [Icmp(ip, EchoRequest), Icmp(ip, TimestampRequest)];
    var synRs, ackRs := TcpRequests(ip, syn, Syn), TcpRequests(ip, ack, Ack);
    assert TargetRequests(ip, syn, ack) == icmp + synRs + ackRs;
    var echo := icmp[..1];
    assert echo == [Icmp(ip, EchoRequest)] && echo[..0] == [];
    assert RequestsFor(t, echo) == RequestsFor(t, []) + (if t == ip then 1 else 0);
    assert RequestsFor(t, icmp) == RequestsFor(t, echo) + (if t == ip then 1 else 0);
    RequestsForTcp(t, ip, syn, Syn);
    RequestsForTcp(t, ip, ack, Ack);
    RequestsForConcat(t, icmp, synRs);
    RequestsForConcat(t, icmp + synRs, ackRs);
  }

  /** The two concatenations DispatchAll's last step makes, counted for target t. */
  lemma RequestsForSplit(targets: seq<string>, syn: seq<Port>, ack: seq<Port>, t: string)
    requires targets != []
    ensures var init, last := targets[..|targets| - 1], targets[|targets| - 1];
      && multiset(targets)[t] == multiset(init)[t] + (if last == t then 1 else 0)
      && RequestsFor(t, DispatchAll(targets, syn, ack))
        == RequestsFor(t, DispatchAll(init, syn, ack)) + RequestsFor(t, TargetRequests(last, syn, ack))
  {
    var init, last := targets[..|targets| - 1], targets[|targets| - 1];
    assert targets == init + [last];
    RequestsForConcat(t, DispatchAll(init, syn, ack), TargetRequests(last, syn, ack));
  }

  lemma {:induction false} RequestsForScaled(targets: seq<string>, syn: seq<Port>, ack: seq<Port>, t: string)
    ensures RequestsFor(t, DispatchAll(targets, syn, ack)) == Scaled(multiset(targets)[t], 2 + |syn| + |ack|)
  {
    if targets != [] {
      var init, last := targets[..|targets| - 1], targets[|targets| - 1];
      RequestsForSplit(targets, syn, ack, t);
      RequestsForTarget(t, last, syn, ack);
      RequestsForScaled(init, syn, ack, t);
    }
  }

  /**
   * Per target: every occurrence of a target in the target set yields
   * exactly two ICMP requests, one per SYN port and one per ACK port.
   */
  lemma RequestsPerTarget(targets: seq<string>, syn: seq<Port>, ack: seq<Port>, t: string)
    ensures RequestsFor(t, DispatchAll(targets, syn, ack)) == multiset(targets)[t] * (2 + |syn| + |ack|)
  {
    RequestsForScaled(targets, syn, ack, t);
    ScaledIsProduct(multiset(targets)[t], 2 + |syn| + |ack|);
  }
}
