/**
 * The transport contract's reference implementation: the per-poll state flag,
 * transport events, the `addr:port` test endpoint with its text codec, and the
 * test transport with its connection table and poll step.
 */
module Transport {
  import opened Errors

  // ---------------------------------------------------------------------------
  // Poll state and events
  // ---------------------------------------------------------------------------

  /** The hint a poll step leaves for the driving loop. */
  class PollEventState {
    var didSomething: bool

    /** A fresh state says that nothing has been done yet. */
    constructor ()
      ensures !didSomething
    {
      didSomething := false;
    }
  }

  datatype TransportEvent = OnError(error: Error)

  // ---------------------------------------------------------------------------
  // Splitting text on a separator, as `str::split(char)` does
  // ---------------------------------------------------------------------------

  /** Number of occurrences of `c` in `s`. */
  function Count(s: string, c: char): nat
  {
    if s == [] then 0 else (if s[0] == c then 1 else 0) + Count(s[1..], c)
  }

  lemma {:induction false} CountAbsent(s: string, c: char)
    ensures (Count(s, c) == 0) == (c !in s)
  {
    if s != [] {
      CountAbsent(s[1..], c);
      assert s == [s[0]] + s[1..];
    }
  }

  /** The parts joined back with the separator between consecutive parts. */
  function Join(parts: seq<string>, sep: char): string
  {
    if parts == [] then ""
    else if |parts| == 1 then parts[0]
    else parts[0] + [sep] + Join(parts[1..], sep)
  }

  /**
   * The pieces of `s` between occurrences of `sep`, in order; like Rust's
   * `split`, the empty string and a trailing separator give empty pieces.
   */
  function Split(s: string, sep: char): (parts: seq<string>)
    ensures |parts| == Count(s, sep) + 1
    ensures forall i :: 0 <= i < |parts| ==> sep !in parts[i]
    ensures Join(parts, sep) == s
    decreases |s|
  {
    if s == [] then [""]
    else
      var rest := Split(s[1..], sep);
      if s[0] == sep then
        [""] + rest
      else
        assert Join(rest, sep) == rest[0] + Join(rest, sep)[|rest[0]|..] by {
          if |rest| > 1 { assert Join(rest, sep) == rest[0] + ([sep] + Join(rest[1..], sep)); }
        }
        [[s[0]] + rest[0]] + rest[1..]
  }

  lemma {:induction false} SplitNoSeparator(b: string, sep: char)
    requires sep !in b
    ensures Split(b, sep) == [b]
  {
    CountAbsent(b, sep);
    var parts := Split(b, sep);
    assert |parts| == 1;
  }

  /** A text with exactly one separator splits into the text before and after it. */
  lemma {:induction false} SplitAtOnlySeparator(a: string, b: string, sep: char)
    requires sep !in a && sep !in b
    ensures Split(a + [sep] + b, sep) == [a, b]
  {
    var s := a + [sep] + b;
    if a == [] {
      assert s == [sep] + b;
      assert s[1..] == b;
      SplitNoSeparator(b, sep);
    } else {
      assert s[0] == a[0] && s[1..] == a[1..] + [sep] + b;
      SplitAtOnlySeparator(a[1..], b, sep);
      assert [a[0]] + a[1..] == a;
    }
  }

  // ---------------------------------------------------------------------------
  // Decimal text of a port, as `format!("{}", u16)` and `str::parse::<u16>`
  // ---------------------------------------------------------------------------

  predicate IsDigit(c: char) { '0' <= c <= '9' }

  predicate AllDigits(t: string) { forall i :: 0 <= i < |t| ==> IsDigit(t[i]) }

  function DigitChar(d: nat): (c: char)
    requires d < 10
    ensures IsDigit(c) && c as int - '0' as int == d
  {
    (d + '0' as int) as char
  }

  /** The number a string of decimal digits denotes (most significant first). */
  function Value(t: string): nat
    requires AllDigits(t)
  {
    if t == [] then 0 else Value(t[..|t| - 1]) * 10 + (t[|t| - 1] as int - '0' as int)
  }

  /** Decimal text without sign or superfluous leading zero. */
  predicate Canonical(t: string)
  {
    |t| > 0 && AllDigits(t) && (t[0] == '0' ==> |t| == 1)
  }

  /** Display of an unsigned integer in base 10. */
  function Decimal(n: nat): string
  {
    if n < 10 then [DigitChar(n)] else Decimal(n / 10) + [DigitChar(n % 10)]
  }

  /**
   * `str::parse::<u16>`: an optional leading `+` followed by at least one ASCII
   * digit, denoting a value that fits in 16 bits; leading zeros are accepted.
   */
  function ParseU16(t: string): (r: Option<u16>)
    ensures r.Some? ==> |t| > 0 && (t[0] == '+' || IsDigit(t[0]))
    ensures Canonical(t) ==> (r.Some? <==> Value(t) <= 0xFFFF)
    ensures Canonical(t) && r.Some? ==> Decimal(r.value) == t
  {
    var digits := if |t| > 0 && t[0] == '+' then t[1..] else t;
    if |digits| > 0 && AllDigits(digits) && Value(digits) <= 0xFFFF then
      var n := Value(digits);
      assert Canonical(t) ==> Decimal(n) == t by {
        if Canonical(t) { CanonicalDecimal(t); }
      }
      Some(n)
    else None
  }

  lemma {:induction false} DecimalIsCanonical(n: nat)
    ensures Canonical(Decimal(n)) && Value(Decimal(n)) == n
  {
    if n >= 10 {
      DecimalIsCanonical(n / 10);
      var p := Decimal(n / 10);
      var t := p + [DigitChar(n % 10)];
      assert t[..|t| - 1] == p;
      CanonicalZero(p);
    }
  }

  /** The only canonical text denoting zero is "0". */
  lemma CanonicalZero(t: string)
    requires Canonical(t)
    ensures (Value(t) == 0) == (t[0] == '0')
  {
    if t[0] != '0' { LeadingNonzeroPositive(t); }
    else { assert t == [t[0]]; assert t[..0] == []; }
  }

  lemma DigitsHaveNoColon(t: string)
    requires AllDigits(t)
    ensures ':' !in t
  {
    assert forall i :: 0 <= i < |t| ==> t[i] != ':';
  }

  lemma {:induction false} LeadingNonzeroPositive(t: string)
    requires |t| > 0 && AllDigits(t) && t[0] != '0'
    ensures Value(t) >= 1
  {
    if |t| > 1 {
      var p := t[..|t| - 1];
      assert AllDigits(p) && p[0] == t[0];
      LeadingNonzeroPositive(p);
    }
  }

  /** Canonical decimal text is exactly the display of the number it denotes. */
  lemma {:induction false} CanonicalDecimal(t: string)
    requires Canonical(t)
    ensures Decimal(Value(t)) == t
    decreases |t|
  {
    var p := t[..|t| - 1];
    var d := t[|t| - 1] as int - '0' as int;
    assert AllDigits(p);
    if |t| == 1 {
      assert p == [];
      assert Decimal(Value(t)) == [DigitChar(d)];
    } else {
      assert Canonical(p) by { assert p[0] == t[0]; }
      LeadingNonzeroPositive(p);
      var n := Value(t);
      assert n == Value(p) * 10 + d;
      assert n / 10 == Value(p) && n % 10 == d;
      CanonicalDecimal(p);
      assert t == p + [t[|t| - 1]];
    }
  }

  // ---------------------------------------------------------------------------
  // The test endpoint and its text codec
  // ---------------------------------------------------------------------------

  datatype TestEndpoint = TestEndpoint(addr: string, port: u16)

  const BAD_ENDPOINT: string := "bad endpoint deserialize"

  /** `Display`: the address, a colon, and the port in decimal. */
  function Display(e: TestEndpoint): (s: string)
    ensures |s| > |e.addr| + 1 && s[..|e.addr|] == e.addr && s[|e.addr|] == ':'
    ensures Canonical(s[|e.addr| + 1..]) && Value(s[|e.addr| + 1..]) == e.port
  {
    var text := e.addr + [':'] + Decimal(e.port);
    DecimalIsCanonical(e.port);
    assert text[|e.addr| + 1..] == Decimal(e.port);
    text
  }

  /**
   * `TestEndpoint::new`: the raw text must split on ':' into exactly two
   * parts; the first is the address, the second must parse as a `u16`.
   */
  function New(raw: string): (r: Result<TestEndpoint, Error>)
    ensures (r == Err(Msg(BAD_ENDPOINT))) == (Count(raw, ':') != 1)
    ensures r.Ok? ==>
      && ':' !in r.value.addr
      && |r.value.addr| < |raw|
      && raw[..|r.value.addr|] == r.value.addr
      && raw[|r.value.addr|] == ':'
      && ParseU16(raw[|r.value.addr| + 1..]) == Some(r.value.port)
    ensures r.Err? && Count(raw, ':') == 1 ==> r == Err(ParseInt)
    ensures Count(raw, ':') == 1 ==> (r.Ok? <==> ParseU16(Split(raw, ':')[1]).Some?)
    ensures r.Ok? ==> r.value.addr == Split(raw, ':')[0] && Some(r.value.port) == ParseU16(Split(raw, ':')[1])
  {
    var parts := Split(raw, ':');
    if |parts| != 2 then Err(Msg(BAD_ENDPOINT))
    else
      assert raw == parts[0] + [':'] + parts[1] by {
        assert Join(parts, ':') == parts[0] + [':'] + Join(parts[1..], ':');
      }
      assert raw[|parts[0]| + 1..] == parts[1];
      match ParseU16(parts[1])
      case None => Err(ParseInt)
      case Some(port) => Ok(TestEndpoint(parts[0], port))
  }

  /** `Endpoint::get`: the displayed text; it never fails. */
  function Get(e: TestEndpoint): (r: Result<string, Error>)
    ensures r.Ok? && r.value == Display(e)
  {
    Ok(Display(e))
  }

  /** A text with one colon parses by its two sides. */
  lemma NewOfParts(a: string, p: string)
    requires ':' !in a && ':' !in p
    ensures New(a + [':'] + p) ==
      match ParseU16(p)
      case None => Err(ParseInt)
      case Some(port) => Ok(TestEndpoint(a, port))
  {
    SplitAtOnlySeparator(a, p, ':');
  }

  /** Rendering then parsing gives the endpoint back when its address has no colon. */
  lemma NewGetRoundTrip(e: TestEndpoint)
    requires ':' !in e.addr
    ensures New(Get(e).value) == Ok(e)
  {
    var t := Decimal(e.port);
    DecimalIsCanonical(e.port);
    DigitsHaveNoColon(t);
    assert ParseU16(t) == Some(e.port);
    NewOfParts(e.addr, t);
  }

  /** Parsing normalises: a parsed endpoint survives another render and parse. */
  lemma NewNormalises(raw: string, e: TestEndpoint)
    requires New(raw) == Ok(e)
    ensures New(Get(e).value) == Ok(e)
  {
    NewGetRoundTrip(e);
  }

  /**
   * Parsing then rendering gives the raw text back exactly when it has one
   * colon and the port part is canonical decimal text of a `u16`.
   */
  lemma GetNewRoundTrip(raw: string)
    ensures (New(raw).Ok? && Get(New(raw).value).value == raw) ==
      (Count(raw, ':') == 1 &&
       Canonical(Split(raw, ':')[1]) && ParseU16(Split(raw, ':')[1]).Some?)
  {
    if Count(raw, ':') == 1 {
      var parts := Split(raw, ':');
      assert raw == parts[0] + [':'] + parts[1] by {
        assert Join(parts, ':') == parts[0] + [':'] + Join(parts[1..], ':');
      }
      NewOfParts(parts[0], parts[1]);
      var r := New(raw);
      if r.Ok? {
        var e := r.value;
        assert e.addr == parts[0];
        DecimalIsCanonical(e.port);
        if Display(e) == raw {
          assert Decimal(e.port) == raw[|parts[0]| + 1..] == parts[1];
        }
      }
      if Canonical(parts[1]) && ParseU16(parts[1]).Some? {
        CanonicalDecimal(parts[1]);
      }
    }
  }

  /** A port written with a sign and a leading zero parses but renders canonically. */
  lemma SignedPortIsNormalised(addr: string)
    requires ':' !in addr
    ensures New(addr + ":+080") == Ok(TestEndpoint(addr, 80))
    ensures Get(TestEndpoint(addr, 80)).value == addr + ":80"
    ensures Get(TestEndpoint(addr, 80)).value != addr + ":+080"
  {
    PlusZeroEighty();
    NewOfParts(addr, "+080");
    assert addr + [':'] + "+080" == addr + ":+080";
    Eighty();
    assert addr + [':'] + "80" == addr + ":80";
    assert |addr + ":80"| != |addr + ":+080"|;
  }

  lemma Eighty()
    ensures Decimal(80) == "80"
  {
    assert Decimal(8) == "8" && Decimal(0) == "0";
  }

  lemma PlusZeroEighty()
    ensures ParseU16("+080") == Some(80)
  {
    var digits := "080";
    assert "+080"[1..] == digits;
    assert AllDigits(digits);
    assert digits[..2] == "08" && "08"[..1] == "0" && "0"[..0] == "";
    assert Value("0") == 0;
    assert Value("08") == 8;
    assert Value(digits) == 80;
  }

  // ---------------------------------------------------------------------------
  // The test transport
  // ---------------------------------------------------------------------------

  const POLL_ERROR: string := "hello"

  /** A transport whose connection table maps each asserted endpoint to its state. */
  class TestTransport {
    var endpoints: map<TestEndpoint, nat>

    /** Every tracked connection holds the initial connection state 0. */
    ghost predicate Valid()
      reads this
    {
      forall e :: e in endpoints ==> endpoints[e] == 0
    }

    /** `Transport::new`: the configuration text is ignored; it never fails. */
    constructor (config: string)
      ensures Valid() && endpoints == map[]
    {
      endpoints := map[];
    }

    /**
     * `assert_connection`: the endpoint is tracked afterwards; nothing else is
     * added, and no tracked connection's state changes.
     */
    method AssertConnection(endpoint: TestEndpoint)
      requires Valid()
      modifies this
      ensures Valid()
      ensures endpoints == old(endpoints)[endpoint := 0]
      ensures endpoints.Keys == old(endpoints).Keys + {endpoint}
      ensures forall e :: e in old(endpoints) ==> endpoints[e] == old(endpoints)[e]
      ensures |endpoints| == |old(endpoints)| + (if endpoint in old(endpoints) then 0 else 1)
    {
      endpoints := endpoints[endpoint := 0];
    }

    /** `process_once`: records that work was done and reports one error event. */
    method ProcessOnce(eventState: PollEventState) returns (events: seq<TransportEvent>)
      modifies eventState
      ensures eventState.didSomething
      ensures events == [OnError(Msg(POLL_ERROR))]
    {
      eventState.didSomething := true;
      events := [];
      events := events + [OnError(Msg(POLL_ERROR))];
    }
  }

  /** Asserting the same endpoint twice tracks it exactly once. */
  method ConnectTwice(e: TestEndpoint) returns (tracked: set<TestEndpoint>, count: nat)
    ensures tracked == {e} && count == 1
  {
    var t := new TestTransport("");
    t.AssertConnection(e);
    t.AssertConnection(e);
    tracked, count := t.endpoints.Keys, |t.endpoints|;
  }

  /** The scenario of the module's test: connect one endpoint and poll once. */
  method ItRuns() returns (tracked: set<TestEndpoint>, events: seq<TransportEvent>, didSomething: bool)
    ensures tracked == {TestEndpoint("test", 12)}
    ensures events == [OnError(Msg(POLL_ERROR))] && didSomething
  {
    var e := TestEndpoint("test", 12);
    var t := new TestTransport("");
    t.AssertConnection(e);
    var state := new PollEventState();
    events := t.ProcessOnce(state);
    tracked, didSomething := t.endpoints.Keys, state.didSomething;
  }
}
