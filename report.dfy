/**
 * What `run` writes with `process.stdout.write` after validation: the probe
 * markers, a newline, and the summary `<list> <noun> are opened`, where the
 * list is `0` or the open ports joined with commas and the noun is `port`
 * exactly when one port is open.
 */
module Report {
  import opened Ports
  import opened Scanner

  /** `result.length === 1 ? 'port' : 'ports'`. */
  function Noun(count: nat): (noun: string)
    ensures |noun| >= 4 && noun[..4] == "port"
    ensures |noun| == 4 <==> count == 1
  {
    if count == 1 then "port" else "ports"
  }

  /** The decimal text of each port, in order. */
  function Decimals(ports: seq<nat>): (texts: seq<string>)
    ensures |texts| == |ports|
  {
    seq(|ports|, i requires 0 <= i < |ports| => Decimal(ports[i]))
  }

  /**
   * `result.length ? result.join() : 0`. It contains no space, so the first
   * space of the summary ends it.
   */
  function Listing(ports: seq<nat>): (listing: string)
    ensures ' ' !in listing
  {
    if |ports| == 0 then "0"
    else
      DecimalsHaveNoSeparators(ports);
      JoinNoSpace(Decimals(ports), ',');
      Join(Decimals(ports), ',')
  }

  /**
   * The summary line: the listing up to the first space, and the fixed
   * ending ` are opened`.
   */
  function Summary(ports: seq<nat>): (line: string)
    ensures FirstSpace(line) == |Listing(ports)| && line[..|Listing(ports)|] == Listing(ports)
    ensures |line| >= 11 && line[|line| - 11..] == " are opened"
  {
    var listing := Listing(ports);
    var rest := Noun(|ports|) + " are opened";
    FirstSpaceAfter(listing, rest);
    assert listing + " " + rest == listing + " " + Noun(|ports|) + " are opened";
    listing + " " + Noun(|ports|) + " are opened"
  }

  /**
   * What a completed run over validated settings writes with
   * `process.stdout.write`: one marker per port of the range in scan order,
   * as many `.` as ports reported open, a newline, then the summary.
   */
  function Transcript(host: string, portFrom: nat, portTo: int, probe: (string, int) -> Outcome): (out: string)
    ensures |out| > RangeSize(portFrom, portTo) && out[RangeSize(portFrom, portTo)] == '\n'
    ensures forall i :: 0 <= i < RangeSize(portFrom, portTo) ==> out[i] == Marker(probe(host, portFrom + i))
    ensures Count(out[..RangeSize(portFrom, portTo)], '.') == |OpenPorts(host, portFrom, portTo, probe)|
    ensures forall i :: 0 <= i < |OpenPorts(host, portFrom, portTo, probe)| ==> OpenPorts(host, portFrom, portTo, probe)[i] >= 0
    ensures out[RangeSize(portFrom, portTo) + 1..] == Summary(OpenPorts(host, portFrom, portTo, probe))
  {
    var open := OpenPorts(host, portFrom, portTo, probe);
    var markers := Markers(host, portFrom, portTo, probe);
    OpenPortsInRange(host, portFrom, portTo, probe);
    MarkersOnePerPort(host, portFrom, portTo, probe);
    OpenPortsCountDots(host, portFrom, portTo, probe);
    var out := markers + "\n" + Summary(open);
    assert out[..|markers|] == markers;
    assert out[|markers| + 1..] == Summary(open);
    out
  }

  // ---------------------------------------------------------------------
  // Properties of the summary

  /** With nothing open the summary reads `0 ports are opened`. */
  lemma NothingOpen()
    ensures Summary([]) == "0 ports are opened"
  {
  }

  /** With one open port `p` the summary is `<p> port are opened`. */
  lemma OneOpen(p: nat)
    ensures Summary([p]) == Decimal(p) + " port are opened"
  {
    assert Decimals([p]) == [Decimal(p)];
    assert Listing([p]) == Decimal(p);
    assert Noun(1) == "port";
    assert Decimal(p) + " " + "port" + " are opened" == Decimal(p) + (" " + "port" + " are opened");
    assert " " + "port" + " are opened" == " port are opened";
  }

  /** With two or more open ports the noun is the plural. */
  lemma SeveralOpen(ports: seq<nat>)
    requires |ports| >= 2
    ensures Summary(ports) == Join(Decimals(ports), ',') + " ports are opened"
  {
    var listing := Join(Decimals(ports), ',');
    assert Listing(ports) == listing;
    assert Noun(|ports|) == "ports";
    assert listing + " " + "ports" + " are opened" == listing + (" " + "ports" + " are opened");
    assert " " + "ports" + " are opened" == " ports are opened";
  }

  lemma DecimalHasNoSeparators(n: nat)
    ensures ',' !in Decimal(n) && ' ' !in Decimal(n)
  {
    var d := Decimal(n);
    assert forall i :: 0 <= i < |d| ==> IsDigit(d[i]);
  }

  lemma DecimalsHaveNoSeparators(ports: seq<nat>)
    ensures forall i :: 0 <= i < |ports| ==> ',' !in Decimals(ports)[i] && ' ' !in Decimals(ports)[i]
  {
    forall i | 0 <= i < |ports| ensures ',' !in Decimals(ports)[i] && ' ' !in Decimals(ports)[i] {
      DecimalHasNoSeparators(ports[i]);
    }
  }

  lemma {:induction false} JoinNoSpace(parts: seq<string>, sep: char)
    requires sep != ' '
    requires forall i :: 0 <= i < |parts| ==> ' ' !in parts[i]
    ensures ' ' !in Join(parts, sep)
    decreases |parts|
  {
    if |parts| > 1 {
      JoinNoSpace(parts[1..], sep);
    }
  }

  /** Splitting a non-empty listing on commas gives each port's decimal text back. */
  lemma ListingRoundTrip(ports: seq<nat>)
    requires |ports| > 0
    ensures Split(Listing(ports), ',') == Decimals(ports)
    ensures forall i :: 0 <= i < |ports| ==>
      AllDigits(Split(Listing(ports), ',')[i]) && Value(Split(Listing(ports), ',')[i]) == ports[i]
  {
    DecimalsHaveNoSeparators(ports);
    SplitJoin(Decimals(ports), ',');
    forall i | 0 <= i < |ports| ensures AllDigits(Decimals(ports)[i]) && Value(Decimals(ports)[i]) == ports[i] {
    }
  }

  /** The index of the first space of `s`, or `|s|` if there is none. */
  function FirstSpace(s: string): (k: nat)
    ensures k <= |s|
    ensures k < |s| ==> s[k] == ' '
  {
    if s == [] || s[0] == ' ' then 0 else 1 + FirstSpace(s[1..])
  }

  lemma {:induction false} FirstSpaceAfter(x: string, y: string)
    requires ' ' !in x
    ensures FirstSpace(x + " " + y) == |x|
  {
    if x != [] {
      assert (x + " " + y)[1..] == x[1..] + " " + y;
      FirstSpaceAfter(x[1..], y);
    }
  }

  lemma ListingInjective(a: seq<nat>, b: seq<nat>)
    requires |a| > 0 && |b| > 0 && Listing(a) == Listing(b)
    ensures a == b
  {
    ListingRoundTrip(a);
    ListingRoundTrip(b);
    assert |a| == |b|;
    forall i | 0 <= i < |a| ensures a[i] == b[i] {
    }
  }

  /**
   * The summary line determines the open ports. `0` lists both no port and
   * port 0; the noun tells the two apart.
   */
  lemma SummaryInjective(a: seq<nat>, b: seq<nat>)
    requires Summary(a) == Summary(b)
    ensures a == b
  {
    assert Listing(a) == Listing(b);
    assert |Noun(|a|)| == |Noun(|b|)| by {
      assert |Summary(a)| == |Listing(a)| + 1 + |Noun(|a|)| + 11;
      assert |Summary(b)| == |Listing(b)| + 1 + |Noun(|b|)| + 11;
    }
    if |a| > 0 && |b| > 0 {
      ListingInjective(a, b);
    }
  }
}
