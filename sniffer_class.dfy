/**
 * The object-based variant: a `PortChecker` whose fields hold the settings,
 * updated in place by `validateArgs`, then read by `scan` and `run`.
 */
module SnifferClass {
  import opened Wrappers
  import opened Ports
  import opened Arguments
  import opened Scanner
  import opened Report

  class PortChecker {
    var host: string
    var minPort: int
    var maxPort: int
    var socketTimeout: int

    /** The settings the fields hold. */
    function Settings(): (c: Config)
      reads this
    {
      Config(host, minPort, maxPort, socketTimeout)
    }

    ghost predicate Valid()
      reads this
    {
      Arguments.Valid(Settings())
    }

    /** Host `127.0.0.1`, ports 0 to 65535, timeout 300 ms. */
    constructor ()
      ensures Settings() == Defaults && Valid()
    {
      host := DEFAULT_HOST;
      minPort := MIN_PORT;
      maxPort := MAX_PORT;
      socketTimeout := DEFAULT_SOCKET_TIMEOUT;
    }

    /**
     * `validateArgs`: stores the host, then the port range, then the timeout,
     * returning the error it throws; fields updated before the throw stay.
     */
    method ValidateArgs(args: Args) returns (err: Option<ArgError>)
      requires Valid()
      modifies this
      ensures Valid()
      ensures Settings() == ApplyArgs(old(Settings()), args).config
      ensures err == ApplyArgs(old(Settings()), args).error
    {
      if args.host.None? {
        return Some(InvalidHost);
      }
      host := args.host.value;

      if PortsTruthy(args.ports) {
        if args.ports.PortsText? && MatchesRange(args.ports.text) {
          var s := args.ports.text;
          MatchedAlphabet(s);
          MatchesRangeIffTwoGroups(s);
          var bounds := PortsToRange(s);
          var lo, hi := bounds[0], bounds[1];
          if lo > hi || !ValidatePort(lo) || !ValidatePort(hi) {
            return Some(InvalidPortRange(lo, hi));
          }
          minPort := lo;
          maxPort := hi;
        } else {
          return Some(InvalidPortFormat);
        }
      }

      if TimeoutTruthy(args.socketTimeout) {
        if args.socketTimeout.value > 0 {
          socketTimeout := args.socketTimeout.value;
        } else {
          return Some(InvalidSocketTimeout);
        }
      }
      return None;
    }

    /** `scan`: probes `[portFrom, portTo]` on the stored host. */
    method Scan(portFrom: int, portTo: int, probe: (string, int) -> Outcome)
      returns (result: seq<int>, markers: string)
      ensures result == OpenPorts(host, portFrom, portTo, probe)
      ensures markers == Markers(host, portFrom, portTo, probe)
      ensures forall i, j :: 0 <= i < j < |result| ==> result[i] < result[j]
      ensures forall p :: p in result <==> portFrom <= p <= portTo && Status(probe(host, p))
    {
      result, markers := Scanner.Scan(host, portFrom, portTo, probe);
    }

    /**
     * `run`: validates, scans the stored range, and yields what it writes with
     * `process.stdout.write`; a validation error aborts before any probe.
     */
    method Run(args: Args, probe: (string, int) -> Outcome) returns (out: Result<string, ArgError>)
      requires Valid()
      modifies this
      ensures Valid()
      ensures Settings() == ApplyArgs(old(Settings()), args).config
      ensures match ApplyArgs(old(Settings()), args).error
        case Some(e) => out == Failure(e)
        case None => out == Success(Transcript(host, minPort, maxPort, probe))
    {
      var err := ValidateArgs(args);
      if err.Some? {
        return Failure(err.value);
      }
      var result, markers := Scan(minPort, maxPort, probe);
      OpenPortsInRange(host, minPort, maxPort, probe);
      out := Success(markers + "\n" + Summary(result));
    }
  }
}
