/**
 * The free-function variant: one shared mutable record `initialState` holds
 * the host, the port range and a nested `options` record with the socket
 * timeout; `validateArgs` updates it in place and `scan` and `run` read it.
 */
module SnifferFunc {
  import opened Wrappers
  import opened Ports
  import opened Arguments
  import opened Scanner
  import opened Report

  /** The nested `options` record. */
  class Options {
    var socketTimeout: int

    constructor (socketTimeout: int)
      ensures this.socketTimeout == socketTimeout
    {
      this.socketTimeout := socketTimeout;
    }
  }

  /** The shared `initialState` record. */
  class State {
    var host: string
    var minPort: int
    var maxPort: int
    var options: Options

    /** The settings the record holds. */
    function Settings(): (c: Config)
      reads this, options
    {
      Config(host, minPort, maxPort, options.socketTimeout)
    }

    ghost predicate Valid()
      reads this, options
    {
      Arguments.Valid(Settings())
    }

    /** Host `127.0.0.1`, ports 0 to 65535, options with timeout 300 ms. */
    constructor ()
      ensures Settings() == Defaults && Valid() && fresh(options)
    {
      host := DEFAULT_HOST;
      minPort := MIN_PORT;
      maxPort := MAX_PORT;
      options := new Options(DEFAULT_SOCKET_TIMEOUT);
    }
  }

  /**
   * `validateArgs`: writes the host, then the port range, then
   * `options.socketTimeout` into the shared record, returning the error it
   * throws; writes made before the throw stay.
   */
  method ValidateArgs(state: State, args: Args) returns (err: Option<ArgError>)
    requires state.Valid()
    modifies state, state.options
    ensures state.options == old(state.options) && state.Valid()
    ensures state.Settings() == ApplyArgs(old(state.Settings()), args).config
    ensures err == ApplyArgs(old(state.Settings()), args).error
  {
    if args.host.None? {
      return Some(InvalidHost);
    }
    state.host := args.host.value;

    if PortsTruthy(args.ports) {
      if args.ports.PortsText? && MatchesRange(args.ports.text) {
        var s := args.ports.text;
        MatchedAlphabet(s);
        MatchesRangeIffTwoGroups(s);
        var bounds := PortsToRange(s);
        var lo, hi := bounds[0], bounds[1];
        if lo > hi || !ValidatePort(lo) || !ValidatePort(hi) {
          return Some(InvalidPortRange(lo, hi));
        }
        state.minPort := lo;
        state.maxPort := hi;
      } else {
        return Some(InvalidPortFormat);
      }
    }

    if TimeoutTruthy(args.socketTimeout) {
      if args.socketTimeout.value > 0 {
        state.options.socketTimeout := args.socketTimeout.value;
      } else {
        return Some(InvalidSocketTimeout);
      }
    }
    return None;
  }

  /** `scan`: probes `[portFrom, portTo]` on the shared record's host. */
  method Scan(state: State, portFrom: int, portTo: int, probe: (string, int) -> Outcome)
    returns (result: seq<int>, markers: string)
    ensures result == OpenPorts(state.host, portFrom, portTo, probe)
    ensures markers == Markers(state.host, portFrom, portTo, probe)
    ensures forall i, j :: 0 <= i < j < |result| ==> result[i] < result[j]
    ensures forall p :: p in result <==> portFrom <= p <= portTo && Status(probe(state.host, p))
  {
    result, markers := Scanner.Scan(state.host, portFrom, portTo, probe);
  }

  /**
   * `run`: validates into the shared record, scans its range, and yields what
   * it writes with `process.stdout.write`; a validation error aborts before
   * any probe.
   */
  method Run(state: State, args: Args, probe: (string, int) -> Outcome) returns (out: Result<string, ArgError>)
    requires state.Valid()
    modifies state, state.options
    ensures state.options == old(state.options) && state.Valid()
    ensures state.Settings() == ApplyArgs(old(state.Settings()), args).config
    ensures match ApplyArgs(old(state.Settings()), args).error
      case Some(e) => out == Failure(e)
      case None => out == Success(Transcript(state.host, state.minPort, state.maxPort, probe))
  {
    var err := ValidateArgs(state, args);
    if err.Some? {
      return Failure(err.value);
    }
    var result, markers := Scan(state, state.minPort, state.maxPort, probe);
    OpenPortsInRange(state.host, state.minPort, state.maxPort, probe);
    out := Success(markers + "\n" + Summary(result));
  }
}
