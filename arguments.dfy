/**
 * The scanner's settings and `validateArgs`, stated as a pure function from
 * the settings before the call and the parsed command-line options to the
 * settings after it and the error it throws, if any. Both program variants
 * update their settings in this order: host, then port range, then socket
 * timeout; a throw stops the sequence, so the steps already taken stay.
 */
module Arguments {
  import opened Wrappers
  import opened Ports

  const DEFAULT_HOST: string := "127.0.0.1"
  const DEFAULT_SOCKET_TIMEOUT: int := 300

  /** The settings a scan reads: host, inclusive port range, socket timeout in milliseconds. */
  datatype Config = Config(host: string, minPort: int, maxPort: int, socketTimeout: int)

  const Defaults: Config := Config(DEFAULT_HOST, MIN_PORT, MAX_PORT, DEFAULT_SOCKET_TIMEOUT)

  /** The settings invariant: an ordered range of valid ports and a positive timeout. */
  predicate Valid(c: Config)
  {
    ValidatePort(c.minPort) && ValidatePort(c.maxPort) && c.minPort <= c.maxPort && c.socketTimeout > 0
  }

  /**
   * The `ports` option as the option parser hands it over: a falsy value that
   * is not a string (absent), a string, or a truthy value that is not a string.
   */
  datatype PortsArg = NoPorts | PortsText(text: string) | PortsOther

  /** JavaScript truthiness of `ports`: any string but the empty one, or a truthy non-string. */
  predicate PortsTruthy(p: PortsArg)
    ensures !PortsTruthy(p) <==> p == NoPorts || p == PortsText("")
  {
    p.PortsOther? || (p.PortsText? && p.text != "")
  }

  /** The options `validateArgs` reads: `host` is `None` when it is not a string. */
  datatype Args = Args(host: Option<string>, ports: PortsArg, socketTimeout: Option<int>)

  /** JavaScript truthiness of a numeric timeout: present and not 0. */
  predicate TimeoutTruthy(t: Option<int>)
    ensures !TimeoutTruthy(t) <==> t == None || t == Some(0)
  {
    t.Some? && t.value != 0
  }

  /** The errors `validateArgs` throws. */
  datatype ArgError =
    | InvalidHost
    | InvalidPortFormat
    | InvalidPortRange(minPort: nat, maxPort: nat)
    | InvalidSocketTimeout

  /** The settings after `validateArgs` and the error it threw, if any. */
  datatype Applied = Applied(config: Config, error: Option<ArgError>)

  /** The port-range step: a truthy `ports` must match the range expression and name a valid range. */
  function ApplyPorts(c: Config, p: PortsArg): (r: Result<Config, ArgError>)
    ensures !PortsTruthy(p) ==> r == Success(c)
    ensures r.Failure? ==> PortsTruthy(p)
    ensures r.Success? ==> r.value.host == c.host && r.value.socketTimeout == c.socketTimeout
    ensures r.Success? && r.value != c ==>
      ValidatePort(r.value.minPort) && ValidatePort(r.value.maxPort) && r.value.minPort <= r.value.maxPort
  {
    match p
    case NoPorts => Success(c)
    case PortsOther => Failure(InvalidPortFormat)
    case PortsText(s) =>
      if s == "" then Success(c)
      else if !MatchesRange(s) then Failure(InvalidPortFormat)
      else
        MatchedAlphabet(s);
        MatchesRangeIffTwoGroups(s);
        var bounds := PortsToRange(s);
        CheckRange(c, bounds[0], bounds[1])
  }

  /** The bounds check on the parsed pair: ordered, and both ends valid ports. */
  function CheckRange(c: Config, lo: nat, hi: nat): (r: Result<Config, ArgError>)
    ensures r.Success? <==> lo <= hi <= MAX_PORT
    ensures r.Success? ==> r.value == c.(minPort := lo, maxPort := hi)
    ensures r.Failure? ==> r.error == InvalidPortRange(lo, hi)
  {
    if lo > hi || !ValidatePort(lo) || !ValidatePort(hi) then Failure(InvalidPortRange(lo, hi))
    else Success(c.(minPort := lo, maxPort := hi))
  }

  /** The timeout step: a truthy timeout must be positive; 0 is falsy and changes nothing. */
  function ApplyTimeout(c: Config, t: Option<int>): (r: Result<Config, ArgError>)
    ensures r.Success? <==> TimeoutAccepted(t)
    ensures r.Failure? ==> r.error == InvalidSocketTimeout
    ensures r.Success? ==> r.value == if TimeoutTruthy(t) then c.(socketTimeout := t.value) else c
  {
    match t
    case None => Success(c)
    case Some(v) =>
      if v == 0 then Success(c)
      else if v > 0 then Success(c.(socketTimeout := v))
      else Failure(InvalidSocketTimeout)
  }

  /** `validateArgs`: host, then ports, then timeout; an error stops the sequence. */
  function ApplyArgs(c: Config, a: Args): (r: Applied)
    ensures r.error == Some(InvalidHost) <==> a.host.None?
    ensures a.host.None? ==> r.config == c
    ensures a.host.Some? ==> r.config.host == a.host.value
    ensures r.config.socketTimeout != c.socketTimeout ==> r.error.None?
  {
    match a.host
    case None => Applied(c, Some(InvalidHost))
    case Some(h) =>
      var withHost := c.(host := h);
      match ApplyPorts(withHost, a.ports)
      case Failure(e) => Applied(withHost, Some(e))
      case Success(withRange) =>
        match ApplyTimeout(withRange, a.socketTimeout)
        case Failure(e) => Applied(withRange, Some(e))
        case Success(done) => Applied(done, None)
  }

  // ---------------------------------------------------------------------
  // Reference description of the accepted options

  /**
   * The `ports` values that pass: absent, the empty string, or a string
   * `<lo>-<hi>` of two `[0-9]{1,5}` groups with lo <= hi <= MAX_PORT.
   */
  ghost predicate PortsAccepted(p: PortsArg)
  {
    match p
    case NoPorts => true
    case PortsOther => false
    case PortsText(s) =>
      s == "" ||
      exists k | 0 <= k < |s| ::
        s[k] == '-' && DigitGroup(s[..k]) && DigitGroup(s[k + 1..]) && Value(s[..k]) <= Value(s[k + 1..]) <= MAX_PORT
  }

  /** The timeouts that pass: absent, zero (falsy) or positive. */
  predicate TimeoutAccepted(t: Option<int>)
  {
    t.None? || t.value >= 0
  }

  // ---------------------------------------------------------------------
  // Properties of validateArgs

  /**
   * A truthy `ports` that is not a string, or a string that does not match
   * the range expression, throws and leaves the range and timeout as they were
   * (the host is already stored).
   */
  lemma PortsFormatStep(c: Config, a: Args)
    requires a.host.Some?
    requires a.ports.PortsOther? || (a.ports.PortsText? && a.ports.text != "" && !MatchesRange(a.ports.text))
    ensures ApplyArgs(c, a) == Applied(c.(host := a.host.value), Some(InvalidPortFormat))
  {
  }

  /**
   * A string matching the range expression at its dash `k` sets the range to
   * the two groups' values, or throws a range error naming them (leaving the
   * range and timeout unchanged) when they are inverted or above MAX_PORT.
   */
  lemma RangeStep(c: Config, a: Args, k: nat)
    requires a.host.Some? && a.ports.PortsText?
    requires var s := a.ports.text;
      k < |s| && s[k] == '-' && DigitGroup(s[..k]) && DigitGroup(s[k + 1..])
    ensures var s := a.ports.text;
      var lo, hi := Value(s[..k]), Value(s[k + 1..]);
      var r := ApplyArgs(c, a);
      if lo <= hi <= MAX_PORT then
        r.config.host == a.host.value && r.config.minPort == lo && r.config.maxPort == hi &&
        (r.error.None? || r.error == Some(InvalidSocketTimeout))
      else
        r == Applied(c.(host := a.host.value), Some(InvalidPortRange(lo, hi)))
  {
    ApplyPortsOfMatch(c.(host := a.host.value), a.ports.text, k);
  }

  /**
   * Once host and ports have passed, a negative timeout throws, a positive one
   * is stored, and 0 leaves the previous timeout; the earlier updates stay.
   */
  lemma TimeoutStep(c: Config, a: Args)
    requires a.host.Some? && ApplyPorts(c.(host := a.host.value), a.ports).Success?
    ensures var withRange := ApplyPorts(c.(host := a.host.value), a.ports).value;
      var r := ApplyArgs(c, a);
      match a.socketTimeout
      case None => r == Applied(withRange, None)
      case Some(v) =>
        if v < 0 then r == Applied(withRange, Some(InvalidSocketTimeout))
        else if v == 0 then r == Applied(withRange, None)
        else r == Applied(withRange.(socketTimeout := v), None)
  {
  }

  /** A string that matches at its dash `k` reaches the bounds check with the two groups' values. */
  lemma ApplyPortsOfMatch(c: Config, s: string, k: nat)
    requires k < |s| && s[k] == '-' && DigitGroup(s[..k]) && DigitGroup(s[k + 1..])
    ensures ApplyPorts(c, PortsText(s)) == CheckRange(c, Value(s[..k]), Value(s[k + 1..]))
  {
    PortsToRangeOfMatch(s, k);
  }

  /** The ports step passes exactly for the values the reference description accepts. */
  lemma ApplyPortsAccepts(c: Config, p: PortsArg)
    ensures ApplyPorts(c, p).Success? <==> PortsAccepted(p)
  {
    if p.PortsText? && p.text != "" {
      var s := p.text;
      if MatchesRange(s) {
        AcceptsMatched(c, s);
      } else {
        RejectsUnmatched(c, s);
      }
    }
  }

  lemma AcceptsMatched(c: Config, s: string)
    requires s != "" && MatchesRange(s)
    ensures ApplyPorts(c, PortsText(s)).Success? <==> PortsAccepted(PortsText(s))
  {
    var k :| 0 <= k < |s| && s[k] == '-' && DigitGroup(s[..k]) && DigitGroup(s[k + 1..]);
    ApplyPortsOfMatch(c, s, k);
    if Value(s[..k]) <= Value(s[k + 1..]) <= MAX_PORT {
      assert PortsAccepted(PortsText(s));
    } else {
      assert ApplyPorts(c, PortsText(s)).Failure?;
      forall j | 0 <= j < |s| && s[j] == '-' && DigitGroup(s[..j]) && DigitGroup(s[j + 1..])
        ensures !(Value(s[..j]) <= Value(s[j + 1..]) <= MAX_PORT)
      {
        DashUnique(s, k, j);
      }
    }
  }

  /** A string matching the range expression has a single dash. */
  lemma DashUnique(s: string, k: nat, j: nat)
    requires k < |s| && s[k] == '-' && DigitGroup(s[..k]) && DigitGroup(s[k + 1..])
    requires j < |s| && s[j] == '-'
    ensures j == k
  {
  }

  lemma RejectsUnmatched(c: Config, s: string)
    requires s != "" && !MatchesRange(s)
    ensures ApplyPorts(c, PortsText(s)).Failure? && !PortsAccepted(PortsText(s))
  {
  }

  /** `validateArgs` returns normally exactly when host, ports and timeout are all acceptable. */
  lemma ApplyArgsSucceeds(c: Config, a: Args)
    ensures ApplyArgs(c, a).error.None? <==>
      a.host.Some? && PortsAccepted(a.ports) && TimeoutAccepted(a.socketTimeout)
  {
    if a.host.Some? {
      ApplyPortsAccepts(c.(host := a.host.value), a.ports);
    }
  }

  /** Whatever it throws, `validateArgs` keeps the settings invariant. */
  lemma ApplyArgsKeepsValid(c: Config, a: Args)
    requires Valid(c)
    ensures Valid(ApplyArgs(c, a).config)
  {
    if a.host.Some? {
      var withHost := c.(host := a.host.value);
      assert Valid(withHost);
      var ports := ApplyPorts(withHost, a.ports);
      if ports.Success? {
        assert Valid(ports.value);
        var timeout := ApplyTimeout(ports.value, a.socketTimeout);
        assert timeout.Success? ==> Valid(timeout.value);
      }
    }
  }

  /**
   * Every valid range, written `<lo>-<hi>` in decimal, is accepted and sets
   * exactly that range.
   */
  lemma EveryRangeAccepted(c: Config, h: string, lo: nat, hi: nat)
    requires lo <= hi <= MAX_PORT
    ensures ApplyArgs(c, Args(Some(h), PortsText(Decimal(lo) + "-" + Decimal(hi)), None)) ==
      Applied(c.(host := h, minPort := lo, maxPort := hi), None)
  {
    var withHost := c.(host := h);
    FormattedRangeStep(withHost, lo, hi);
    assert ApplyPorts(withHost, PortsText(Decimal(lo) + "-" + Decimal(hi))) == Success(withHost.(minPort := lo, maxPort := hi));
    assert ApplyTimeout(withHost.(minPort := lo, maxPort := hi), None) == Success(withHost.(minPort := lo, maxPort := hi));
  }

  /** A pair written `<lo>-<hi>` in decimal reaches the bounds check with `lo` and `hi`. */
  lemma FormattedRangeStep(c: Config, lo: nat, hi: nat)
    requires lo <= 99999 && hi <= 99999
    ensures ApplyPorts(c, PortsText(Decimal(lo) + "-" + Decimal(hi))) == CheckRange(c, lo, hi)
  {
    var s := Decimal(lo) + "-" + Decimal(hi);
    FormattedRangeMatches(lo, hi);
    assert s != "";
  }

  // ---------------------------------------------------------------------
  // The documented examples

  /** `10-10` selects the single port 10. */
  lemma SinglePortRange(c: Config, h: string)
    ensures ApplyArgs(c, Args(Some(h), PortsText("10-10"), None)) ==
      Applied(c.(host := h, minPort := 10, maxPort := 10), None)
  {
    EveryRangeAccepted(c, h, 10, 10);
    assert Decimal(10) + "-" + Decimal(10) == "10-10";
  }

  /** `20-10` is inverted and throws a range error; the new host stays. */
  lemma InvertedRange(c: Config, h: string)
    ensures ApplyArgs(c, Args(Some(h), PortsText("20-10"), None)) ==
      Applied(c.(host := h), Some(InvalidPortRange(20, 10)))
  {
    FormattedRangeStep(c.(host := h), 20, 10);
    assert Decimal(20) + "-" + Decimal(10) == "20-10";
    assert ApplyPorts(c.(host := h), PortsText("20-10")) == Failure(InvalidPortRange(20, 10));
  }

  /** `99999-99999` matches the range expression but lies above MAX_PORT, so it throws. */
  lemma FiveNinesRange(c: Config, h: string)
    ensures ApplyArgs(c, Args(Some(h), PortsText("99999-99999"), None)) ==
      Applied(c.(host := h), Some(InvalidPortRange(99999, 99999)))
  {
    var s := "99999-99999";
    var g := "99999";
    assert s[..5] == g && s[6..] == g;
    NinesValue();
    ApplyPortsOfMatch(c.(host := h), s, 5);
  }

  lemma NinesValue()
    ensures AllDigits("99999") && Value("99999") == 99999
  {
    ValueSnoc([], '9');
    assert [] + ['9'] == "9";
    ValueSnoc("9", '9');
    assert "9" + ['9'] == "99";
    ValueSnoc("99", '9');
    assert "99" + ['9'] == "999";
    ValueSnoc("999", '9');
    assert "999" + ['9'] == "9999";
    ValueSnoc("9999", '9');
    assert "9999" + ['9'] == "99999";
  }

  /** A timeout of -5 throws after host and range are stored. */
  lemma NegativeTimeout(c: Config, h: string)
    ensures ApplyArgs(c, Args(Some(h), NoPorts, Some(-5))) ==
      Applied(c.(host := h), Some(InvalidSocketTimeout))
  {
  }

  /** With no ports and no timeout, only the host changes: the defaults stay. */
  lemma DefaultsKept(h: string)
    ensures ApplyArgs(Defaults, Args(Some(h), NoPorts, None)) ==
      Applied(Config(h, 0, 65535, 300), None)
    ensures ApplyArgs(Defaults, Args(Some(h), PortsText(""), Some(0))) ==
      Applied(Config(h, 0, 65535, 300), None)
  {
  }
}
