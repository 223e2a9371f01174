/** `server_available?`: a point-in-time liveness and latency check. The probe
    (`GET http://host:port/` with a 2-second timeout) is a parameter giving, for a
    host and port, either the exception it raised or its reply and elapsed time. */
module Availability {
  import opened Wrappers
  import opened Config

  datatype Probe = ProbeRaised | ProbeReplied(success: bool, elapsedSeconds: real)

  /** `server_busy_threshold_ms || 1000`. */
  function BusyThresholdMs(configured: Option<int>): int {
    configured.GetOr(1000)
  }

  /** The server is enabled, and its probe returned a success status in less than the
      busy threshold; a probe that raised counts as unavailable. */
  predicate ServerAvailable(b: Backend, thresholdMs: Option<int>, probe: (string, nat) -> Probe) {
    b.enabled
    && match probe(b.host, b.port)
       case ProbeRaised => false
       case ProbeReplied(ok, elapsed) => ok && elapsed < BusyThresholdMs(thresholdMs) as real / 1000.0
  }

  /** Availability is the conjunction of the three conditions, with the threshold
      defaulting to 1000 ms. */
  lemma AvailableIff(b: Backend, thresholdMs: Option<int>, probe: (string, nat) -> Probe)
    ensures ServerAvailable(b, thresholdMs, probe)
        <==> b.enabled && probe(b.host, b.port).ProbeReplied? && probe(b.host, b.port).success
             && probe(b.host, b.port).elapsedSeconds * 1000.0 < BusyThresholdMs(thresholdMs) as real
    ensures thresholdMs.None? ==> (ServerAvailable(b, thresholdMs, probe) <==> ServerAvailable(b, Some(1000), probe))
  {
  }

  /** Raising the busy threshold never makes an available server unavailable, and
      a faster successful reply is never worse than a slower one. */
  lemma AvailabilityMonotone(b: Backend, t1: int, t2: int,
                             p1: (string, nat) -> Probe, p2: (string, nat) -> Probe)
    requires t1 <= t2
    requires p1(b.host, b.port).ProbeReplied? && p2(b.host, b.port).ProbeReplied?
    requires p1(b.host, b.port).success ==> p2(b.host, b.port).success
    requires p2(b.host, b.port).elapsedSeconds <= p1(b.host, b.port).elapsedSeconds
    ensures ServerAvailable(b, Some(t1), p1) ==> ServerAvailable(b, Some(t2), p2)
  {
  }
}
