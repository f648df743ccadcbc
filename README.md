# Sequential TCP port scanner — Dafny model

This project models the logic of a small command-line TCP port scanner
written in JavaScript. The JavaScript has two copies of the same logic:
`src/snifferClass.js` keeps its settings in the fields of a `PortChecker`
object, and `src/snifferFunc.js` keeps them in one shared mutable record,
`initialState`. The logic has four parts:

- **Argument validation** (`validateArgs`). It stores the host. It checks the
  `ports` string against `^[0-9]{1,5}-[0-9]{1,5}$` and splits it on `-` with
  `portsToRange`. It rejects inverted pairs and pairs outside `[0, 65535]`
  (`validatePort`). Last, it checks the socket timeout. Each step writes its
  setting before the next step runs. So when a later check throws, the earlier
  writes stay.
- **The scan** (`scan`). It probes each port from `portFrom` to `portTo` in
  turn and collects the ports whose probe connected.
- **The progress markers** (`onConnect`, `onError`, `onTimeout`). Each probe
  prints one character: `.`, `!` or `_`.
- **The summary line** in `run`. It is `0`, or the open ports joined with
  commas. Then comes `port` when exactly one port is open, `ports` otherwise,
  and then ` are opened`.

Modules:

- `Wrappers`: `Option` and `Result`.
- `Ports`: the port bounds, `validatePort`, the range regular expression,
  `split`/`join`, `Number` on digit strings and the decimal rendering of a
  number, and `portsToRange`.
- `Arguments`: the settings record `Config` with its invariant `Valid`. It
  also holds the parsed options `Args` and the thrown errors `ArgError`.
  `ApplyArgs` is the pure specification of `validateArgs`: it gives the
  settings after the call and the error thrown, if any. `PortsAccepted` and
  `TimeoutAccepted` are a separate description of the accepted options.
- `Scanner`: the probe outcome and its marker. `OpenPorts` and `Markers`
  specify the scan, and the `Scan` method is the loop, proved against them.
- `Report`: the summary line, and what a run writes with
  `process.stdout.write` (`Transcript`).
- `SnifferClass`: the `PortChecker` class. Its fields are updated in place by
  `ValidateArgs`, and its `Scan` and `Run` methods read them.
- `SnifferFunc`: the shared `State` record with its nested `Options` record,
  and the free methods `ValidateArgs`, `Scan` and `Run` that update and read
  it.

Both variants' `ValidateArgs` methods update their fields step by step, as
the source does. Each is proved to leave exactly the settings `ApplyArgs`
gives, and to keep `Valid`. The lemmas about `ApplyArgs` say what
`validateArgs` promises.

Where the source's surroundings are not Dafny, the model takes them as
input:

- The network attempt (`connect`) is a parameter `probe`, a function from
  host and port to an `Outcome`: `Connected`, `Errored` or `TimedOut`.
- The option parser's result is the `Args` value. A `host` that is not a
  string is `None`. `ports` is `NoPorts`, `PortsText(s)` or `PortsOther`.
  `NoPorts` stands for a falsy value that is not a string. `PortsOther`
  stands for a truthy value that is not a string. In `src/snifferFunc.js`,
  `ports` has no declared type, so a number such as `-p 80` produces one.
  `socketTimeout` is an optional integer.
- What `process.stdout.write` writes is a returned string: the markers, a
  newline and the summary line. The `console.log` lines are not in it.
- An exception thrown by `validateArgs` is a returned error. Such an error
  stops `run` before any probe.

## Model

| member | source | states |
|---|---|---|
| Ports.ValidatePort | src/snifferClass.js:131 | a port passes exactly when it lies in `[0, 65535]` |
| Ports.MatchesRange | src/snifferClass.js:109 | a string the expression accepts has 3 to 11 characters and contains a dash |
| Ports.Split | src/snifferClass.js:132 | `split` always yields at least one piece |
| Ports.Value | src/snifferClass.js:132 | `Number` of a string of `n` digits is below `10^n` |
| Ports.Decimal | src/snifferClass.js:41 | the decimal text of `n` is a non-empty digit string that `Number` reads back as `n`; with `Ports.DecimalCanonical` it is the text `join` writes for each port |
| Ports.DecimalCanonical | src/snifferFunc.js:121 | the decimal text has no leading zero unless it is `0`, so it is the unpadded form JavaScript writes for a number |
| Ports.PortsToRange | src/snifferFunc.js:80 | `portsToRange` gives one number per piece of `split('-')` |
| Ports.DigitGroupBound | src/snifferClass.js:109 | a `[0-9]{1,5}` group denotes at most 99999; with `Arguments.FiveNinesRange` this shows that the expression alone does not keep a port below 65536 |
| Ports.MatchesRangeIffTwoGroups | src/snifferClass.js:109-110 | the range expression matches exactly the strings that split on `-` into two groups of one to five digits |
| Ports.PortsToRangeOfMatch | src/snifferClass.js:132 | for a string that matches with its dash at `k`, `split('-')` gives the two digit groups and `portsToRange` their decimal values, in order |
| Ports.FormattedRangeMatches | src/snifferFunc.js:93-94 | every pair of numbers up to 99999, written `<lo>-<hi>` in decimal, matches the expression, and `portsToRange` reads back `[lo, hi]` |
| Ports.Join | src/snifferClass.js:41 | `result.join()` of two or more ports contains the separator; `Ports.JoinSplit` and `Ports.SplitJoin` make it the inverse of `split` |
| Ports.JoinSplit | src/snifferClass.js:132 | joining the pieces of `s.split(sep)` with `sep` restores `s` |
| Ports.SplitJoin | src/snifferFunc.js:121 | splitting the join of one or more separator-free pieces gives the pieces back |
| Arguments.PortsTruthy | src/snifferClass.js:108 | `if (ports)` is false exactly for an absent (falsy non-string) value and the empty string |
| Arguments.TimeoutTruthy | src/snifferFunc.js:106 | `if (socketTimeout)` is false exactly for an absent timeout and 0 |
| Arguments.ApplyArgs | src/snifferClass.js:99-129 | `InvalidHost` is thrown exactly when the host is not a string, and then nothing changes; a string host is stored even when a later check throws; the timeout changes only when nothing is thrown |
| Arguments.ApplyPorts | src/snifferFunc.js:92-104 | falsy ports change nothing; only truthy ports throw; the step never touches host or timeout, and a range it sets is an ordered pair of valid ports |
| Arguments.CheckRange | src/snifferClass.js:111-116 | the check passes exactly when `lo <= hi <= 65535` and then sets exactly `minPort = lo`, `maxPort = hi`; otherwise it throws `InvalidPortRange(lo, hi)` |
| Arguments.ApplyTimeout | src/snifferFunc.js:106-112 | the step passes exactly for an absent or non-negative timeout; a non-zero one is stored, an absent or 0 one keeps the old; a negative one throws `InvalidSocketTimeout` |
| Arguments.PortsFormatStep | src/snifferClass.js:108-119 | a truthy non-string `ports`, or a non-empty string that fails the expression, throws `InvalidPortFormat`; the only change is the new host |
| Arguments.RangeStep | src/snifferClass.js:110-116 | a matching string sets the range to its two groups' values when `lo <= hi <= 65535`, and otherwise throws `InvalidPortRange(lo, hi)` with range and timeout unchanged |
| Arguments.TimeoutStep | src/snifferClass.js:122-128 | after host and ports pass, an absent or 0 timeout keeps the old one, a positive one is stored, and a negative one throws `InvalidSocketTimeout` with host and range already stored |
| Arguments.ApplyPortsAccepts | src/snifferFunc.js:92-104 | the ports step passes exactly for absent or empty ports and for `<lo>-<hi>` digit groups with `lo <= hi <= 65535`, both directions |
| Arguments.ApplyArgsSucceeds | src/snifferFunc.js:83-113 | `validateArgs` returns normally exactly when the host is a string, the ports are accepted and the timeout is absent or not negative |
| Arguments.ApplyArgsKeepsValid | src/snifferClass.js:99-129 | from valid settings, the settings left behind are valid whether or not it throws: ordered range of valid ports, positive timeout |
| Arguments.EveryRangeAccepted | src/snifferFunc.js:95-100 | every range `lo <= hi <= 65535`, written in decimal, is accepted and sets exactly `minPort = lo`, `maxPort = hi` |
| Arguments.SinglePortRange | src/snifferClass.js:114-115 | `10-10` sets both ends to 10 |
| Arguments.InvertedRange | src/snifferClass.js:111-112 | `20-10` throws `InvalidPortRange(20, 10)`; the new host stays |
| Arguments.FiveNinesRange | src/snifferFunc.js:93-96 | `99999-99999` matches the expression but throws `InvalidPortRange(99999, 99999)` |
| Arguments.NegativeTimeout | src/snifferFunc.js:106-111 | a timeout of -5 throws `InvalidSocketTimeout` after the host is stored |
| Arguments.DefaultsKept | src/snifferFunc.js:25-32 | with absent or empty ports and an absent or 0 timeout, the defaults 0, 65535 and 300 stay |
| Scanner.Status | src/snifferClass.js:64-81 | the probe resolves `true` on connect and `false` on error and on timeout |
| Scanner.Marker | src/snifferClass.js:83-97 | the marker is `.` exactly on connect (the probe resolves `true`), `!` exactly on error, `_` exactly on timeout |
| Scanner.OpenPorts | src/snifferClass.js:47-55 | no more ports are reported than the range holds |
| Scanner.Markers | src/snifferFunc.js:37-39 | exactly one marker is printed per port of the range |
| Scanner.Scan | src/snifferClass.js:47-55 | the loop returns `OpenPorts` and prints `Markers`; its result is strictly ascending and holds exactly the ports in range whose probe connected |
| Scanner.OpenPortsInRange | src/snifferFunc.js:37-40 | every reported port lies in `[portFrom, portTo]` |
| Scanner.OpenPortsAscending | src/snifferClass.js:49-53 | the reported ports are strictly ascending, so no port appears twice |
| Scanner.OpenPortsMembers | src/snifferClass.js:50-53 | a port is reported if and only if it lies in the range and its probe connected |
| Scanner.MarkersOnePerPort | src/snifferFunc.js:37-39 | one marker per port of the range, the i-th being that of port `portFrom + i`: each port is probed once, in order |
| Scanner.OpenPortsCountDots | src/snifferFunc.js:49-54 | the number of ports reported equals the number of `.` markers printed |
| Scanner.EmptyRange | src/snifferClass.js:49 | an inverted range probes nothing and reports nothing |
| Scanner.SinglePort | src/snifferFunc.js:37-39 | a one-port range probes that port once and reports it exactly when it connected |
| Report.NothingOpen | src/snifferClass.js:41 | with no open port the summary is `0 ports are opened` |
| Report.OneOpen | src/snifferFunc.js:121 | with one open port `p` the summary is `<p> port are opened` |
| Report.SeveralOpen | src/snifferClass.js:41 | with two or more open ports the summary is their comma-joined list followed by `ports are opened` |
| Report.Noun | src/snifferClass.js:41 | the noun starts with `port` and is exactly `port` when one port is open |
| Report.Listing | src/snifferFunc.js:121 | the listing of the open ports contains no space |
| Report.Summary | src/snifferClass.js:41 | the first space of the line ends the listing, and the line ends with ` are opened` |
| Report.Transcript | src/snifferClass.js:38-41 | one marker per port of the range, in scan order, then a newline, then exactly the summary of the open ports; the `.` markers are as many as the ports reported open |
| Report.ListingRoundTrip | src/snifferFunc.js:121 | splitting a non-empty port list on commas gives each port's decimal text, which reads back as that port |
| Report.SummaryInjective | src/snifferClass.js:41 | two summaries are equal only for equal port lists; the noun separates no port from the single port 0 |
| SnifferClass.PortChecker.constructor | src/snifferClass.js:29-34 | host `127.0.0.1`, ports 0 to 65535, timeout 300, which are valid settings |
| SnifferClass.PortChecker.ValidateArgs | src/snifferClass.js:99-129 | the fields become `ApplyArgs` of the old fields, the returned error is the one thrown, and the settings stay valid |
| SnifferClass.PortChecker.Scan | src/snifferClass.js:44-56 | scans on the stored host: the ascending result holds exactly the connected ports of the range |
| SnifferClass.PortChecker.Run | src/snifferClass.js:35-43 | a validation error is returned before any probe; otherwise the output is the markers, a newline and the summary of the stored range |
| SnifferFunc.State.constructor | src/snifferFunc.js:25-32 | the shared record starts with the defaults and a fresh `options` record |
| SnifferFunc.ValidateArgs | src/snifferFunc.js:83-113 | the shared record, including `options.socketTimeout`, becomes `ApplyArgs` of its old contents; the returned error is the one thrown |
| SnifferFunc.Scan | src/snifferFunc.js:34-42 | scans on the shared record's host: the ascending result holds exactly the connected ports of the range |
| SnifferFunc.Run | src/snifferFunc.js:115-123 | a validation error is returned before any probe; otherwise the output is the markers, a newline and the summary of the record's range |

For one open port `p` both sources write `<p> port are opened`. The model
follows them (`Report.OneOpen`).

## Left out

- Sockets: `net.connect`, the `connect`/`error`/`timeout` event handlers,
  `setTimeout`, `socket.destroy` and the Promise and `await` machinery. This is
  network I/O. The model replaces it with the `probe` oracle. The stored socket
  timeout is therefore carried in the settings, but no model member uses it.
- The option parser (yargs), `--help` and the required-host check
  (`demandOption`). yargs is a foreign library. Its result is the `Args`
  input. The model passes a missing host as `None`, which `ApplyArgs`
  rejects with `InvalidHost`; in the program, yargs stops the run before
  `validateArgs` is called.
- `console.log` output: the "Scanning ports from …" banner, the error code and
  address line that `onError` prints before each `!`, and the class's debug
  print of the arguments at the start of `validateArgs`, which appears even
  when validation throws. These lines also go to standard output, interleaved
  with the markers. The model's output string holds only what
  `process.stdout.write` writes, so it is not the whole standard output.
- `process.exit`: a completed `Run` returns `Success`, and a validation error
  returns `Failure`.
- The error message texts. An error is modelled by its kind, and a range error
  by the two numbers its message quotes.
- JavaScript `Number` semantics beyond decimal digit strings: fractional,
  `NaN` or infinite timeouts, and `Number.isFinite`. Ports and timeouts are
  unbounded integers.
- Ports.PortsToRange: defined only on strings of digits and dashes. Those are
  the only strings its callers pass, because they pass the regular expression
  first. `Number` of other text (which gives `NaN`) is not modelled.
- The default arguments of the class's `scan` (`portFrom = this.minPort`,
  `portTo = this.maxPort`). The model's `Scan` takes both bounds, which is how
  `run` calls it.
- SnifferFunc.Run: `run(state = initialState)` reads the range from its
  `state` parameter, while `validateArgs` and `scan` use the global
  `initialState`. The model uses one `state` for all three. At the only call,
  `run()`, the two are the same object.
