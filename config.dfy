/** Configuration and shared vocabulary of the host-liveness probes. */
module Config {

  /** A TCP port number, as the scanner's port sets hold them. */
  type Port = int

  /** The options that the probe logic reads; loaded once, never changed here. */
  datatype Options = Options(
    icmpEchoProbe: bool,
    icmpTimestampProbe: bool,
    noProbe: bool,
    rate: int,      // requests per second
    timeout: int)   // milliseconds, handed to the network calls

  /** The two ICMP request kinds the send engine understands. */
  datatype IcmpKind = EchoRequest | TimestampRequest

  /** The two TCP flags a probe segment can carry. */
  datatype TcpFlag = Syn | Ack

  /** The scanner's phase marker; this core only ever writes Probe. */
  datatype Phase = Init | Probe | Scan | Done | Guard

  /** One nanosecond-based second, the numerator of the limiter interval. */
  const NanosPerSecond: int := 1_000_000_000
}
