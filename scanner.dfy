/**
 * The sequential scan: probe every port of an inclusive range in ascending
 * order, print one progress marker per probe, and collect the ports whose
 * probe connected. The network attempt itself is an oracle `probe` giving
 * the event that settled the attempt on a host and port.
 */
module Scanner {

  /** The event that settles one connection attempt: connect, error or timeout. */
  datatype Outcome = Connected | Errored | TimedOut

  /** The value `handleSocketEvents` resolves with: `true` only on connect. */
  predicate Status(o: Outcome)
    ensures Status(o) <==> !o.Errored? && !o.TimedOut?
  {
    o.Connected?
  }

  /** The marker the handlers print: `.` for connect, `!` for error, `_` for timeout. */
  function Marker(o: Outcome): (m: char)
    ensures m == '.' <==> Status(o)
    ensures m == '!' <==> o.Errored?
    ensures m == '_' <==> o.TimedOut?
  {
    match o
    case Connected => '.'
    case Errored => '!'
    case TimedOut => '_'
  }

  /** The ports of `[portFrom, portTo]` whose probe connected, in probe order. */
  function OpenPorts(host: string, portFrom: int, portTo: int, probe: (string, int) -> Outcome): (open: seq<int>)
    ensures |open| <= RangeSize(portFrom, portTo)
    decreases portTo - portFrom
  {
    if portTo < portFrom then []
    else OpenPorts(host, portFrom, portTo - 1, probe) + (if Status(probe(host, portTo)) then [portTo] else [])
  }

  /** The markers printed while probing `[portFrom, portTo]`, in probe order. */
  function Markers(host: string, portFrom: int, portTo: int, probe: (string, int) -> Outcome): (markers: string)
    ensures |markers| == RangeSize(portFrom, portTo)
    decreases portTo - portFrom
  {
    if portTo < portFrom then []
    else Markers(host, portFrom, portTo - 1, probe) + [Marker(probe(host, portTo))]
  }

  /** The number of ports in the inclusive range `[portFrom, portTo]`. */
  function RangeSize(portFrom: int, portTo: int): (size: nat)
  {
    if portTo < portFrom then 0 else portTo - portFrom + 1
  }

  function Count(s: string, c: char): (n: nat)
    ensures n <= |s|
  {
    if s == [] then 0 else Count(s[..|s| - 1], c) + (if s[|s| - 1] == c then 1 else 0)
  }

  /** `scan`: the loop over the range, pushing each port whose probe resolved `true`. */
  method Scan(host: string, portFrom: int, portTo: int, probe: (string, int) -> Outcome)
    returns (result: seq<int>, markers: string)
    ensures result == OpenPorts(host, portFrom, portTo, probe)
    ensures markers == Markers(host, portFrom, portTo, probe)
    ensures forall i, j :: 0 <= i < j < |result| ==> result[i] < result[j]
    ensures forall p :: p in result <==> portFrom <= p <= portTo && Status(probe(host, p))
  {
    result, markers := [], [];
    var port := portFrom;
    while port <= portTo
      invariant portFrom <= port <= if portFrom <= portTo then portTo + 1 else portFrom
      invariant result == OpenPorts(host, portFrom, port - 1, probe)
      invariant markers == Markers(host, portFrom, port - 1, probe)
      decreases portTo - port
    {
      var outcome := probe(host, port);
      markers := markers + [Marker(outcome)];
      if Status(outcome) {
        result := result + [port];
      }
      port := port + 1;
    }
    OpenPortsAscending(host, portFrom, portTo, probe);
    OpenPortsMembers(host, portFrom, portTo, probe);
  }

  // ---------------------------------------------------------------------
  // Properties of the scan

  /** Every reported port lies in the scanned range. */
  lemma {:induction false} OpenPortsInRange(host: string, portFrom: int, portTo: int, probe: (string, int) -> Outcome)
    ensures forall i :: 0 <= i < |OpenPorts(host, portFrom, portTo, probe)| ==>
      portFrom <= OpenPorts(host, portFrom, portTo, probe)[i] <= portTo
    decreases portTo - portFrom
  {
    if portFrom <= portTo {
      OpenPortsInRange(host, portFrom, portTo - 1, probe);
    }
  }

  /** The reported ports are strictly ascending, hence free of duplicates. */
  lemma {:induction false} OpenPortsAscending(host: string, portFrom: int, portTo: int, probe: (string, int) -> Outcome)
    ensures forall i, j :: 0 <= i < j < |OpenPorts(host, portFrom, portTo, probe)| ==>
      OpenPorts(host, portFrom, portTo, probe)[i] < OpenPorts(host, portFrom, portTo, probe)[j]
    decreases portTo - portFrom
  {
    if portFrom <= portTo {
      OpenPortsAscending(host, portFrom, portTo - 1, probe);
      OpenPortsInRange(host, portFrom, portTo - 1, probe);
    }
  }

  /** A port is reported exactly when it lies in the range and its probe connected. */
  lemma {:induction false} OpenPortsMembers(host: string, portFrom: int, portTo: int, probe: (string, int) -> Outcome)
    ensures forall p :: p in OpenPorts(host, portFrom, portTo, probe) <==>
      portFrom <= p <= portTo && Status(probe(host, p))
    decreases portTo - portFrom
  {
    if portFrom <= portTo {
      OpenPortsMembers(host, portFrom, portTo - 1, probe);
    }
  }

  /**
   * Each port of the range is probed exactly once, in ascending order: the
   * i-th marker is the outcome of port `portFrom + i`.
   */
  lemma {:induction false} MarkersOnePerPort(host: string, portFrom: int, portTo: int, probe: (string, int) -> Outcome)
    ensures forall i :: 0 <= i < |Markers(host, portFrom, portTo, probe)| ==>
      Markers(host, portFrom, portTo, probe)[i] == Marker(probe(host, portFrom + i))
    decreases portTo - portFrom
  {
    if portFrom <= portTo {
      MarkersOnePerPort(host, portFrom, portTo - 1, probe);
    }
  }

  /** The ports reported open are as many as the `.` markers printed. */
  lemma {:induction false} OpenPortsCountDots(host: string, portFrom: int, portTo: int, probe: (string, int) -> Outcome)
    ensures |OpenPorts(host, portFrom, portTo, probe)| == Count(Markers(host, portFrom, portTo, probe), '.')
    decreases portTo - portFrom
  {
    if portFrom <= portTo {
      OpenPortsCountDots(host, portFrom, portTo - 1, probe);
      var m := Markers(host, portFrom, portTo, probe);
      assert m[..|m| - 1] == Markers(host, portFrom, portTo - 1, probe);
    }
  }

  /** An empty or inverted range probes nothing and reports nothing. */
  lemma EmptyRange(host: string, portFrom: int, portTo: int, probe: (string, int) -> Outcome)
    requires portTo < portFrom
    ensures OpenPorts(host, portFrom, portTo, probe) == [] && Markers(host, portFrom, portTo, probe) == []
  {
  }

  /** A range of one port probes that port once and reports it exactly when it connected. */
  lemma SinglePort(host: string, port: int, probe: (string, int) -> Outcome)
    ensures Markers(host, port, port, probe) == [Marker(probe(host, port))]
    ensures OpenPorts(host, port, port, probe) == if Status(probe(host, port)) then [port] else []
  {
    assert Markers(host, port, port - 1, probe) == [];
    assert OpenPorts(host, port, port - 1, probe) == [];
  }
}
