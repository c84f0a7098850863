/**
 * The four check strategies. The HTTP client and the ICMP pinger are
 * replaced by a transport: a total function from the probe a strategy sends
 * to the reply it gets. Each strategy then decides up or down and may leave
 * a diagnostic for `lastError`.
 */
module Checks {
  import opened Wrappers
  import opened Text
  import opened Services

  /** What a strategy asks the network for. */
  datatype Probe =
    | HttpRequest(url: string)        // an HTTP GET with a 5 s timeout
    | Echo(host: string, count: nat)  // ICMP echo requests

  /**
   * What the transport answers: the status of the GET (a negative client
   * error code when no response arrived), the body it returned, and whether
   * the pinger reported success.
   */
  datatype Reply = Reply(httpCode: int, body: string, pingSucceeded: bool)

  /** Up or down, and the text a strategy writes into `lastError` if it writes one. */
  datatype Verdict = Verdict(up: bool, error: Option<string>)

  /** The text of a transport failure: a fixed prefix, then the code, which can be read back. */
  function ConnectionFailed(code: int): (text: string)
    ensures |text| > 19 && text[..19] == "Connection failed: "
    ensures ParseDecimal(text[19..]) == Some(code)
  {
    DecimalRoundTrip(code);
    var text := "Connection failed: " + Decimal(code);
    assert text[19..] == Decimal(code);
    text
  }

  /** The text of a non-200 response: "HTTP ", then the status, which can be read back. */
  function HttpStatusError(code: int): (text: string)
    ensures |text| > 5 && text[..5] == "HTTP "
    ensures ParseDecimal(text[5..]) == Some(code)
  {
    DecimalRoundTrip(code);
    var text := "HTTP " + Decimal(code);
    assert text[5..] == Decimal(code);
    text
  }

  /**
   * The error texts tell the failures apart: each code has its own text, and
   * no transport failure reads like an HTTP status or a check mismatch.
   */
  lemma ErrorTextsDistinct(a: int, b: int)
    ensures ConnectionFailed(a) == ConnectionFailed(b) ==> a == b
    ensures HttpStatusError(a) == HttpStatusError(b) ==> a == b
    ensures ConnectionFailed(a) != HttpStatusError(b)
    ensures ConnectionFailed(a) != "Response mismatch" && ConnectionFailed(a) != "Ping timeout"
    ensures HttpStatusError(a) != "Response mismatch" && HttpStatusError(a) != "Ping timeout"
  {
    assert ConnectionFailed(a)[0] == 'C' && HttpStatusError(b)[0] == 'H';
    assert HttpStatusError(a)[0] == 'H';
  }

  /** `checkHomeAssistant`: any positive status (a 404 included) means the hub is alive. */
  function HomeAssistantVerdict(httpCode: int): (v: Verdict)
    ensures v.up <==> httpCode > 0
    ensures v.up <==> v.error.None?
    ensures !v.up ==> v.error == Some(ConnectionFailed(httpCode))
  {
    if httpCode > 0 then Verdict(true, None)
    else Verdict(false, Some(ConnectionFailed(httpCode)))
  }

  /**
   * `checkJellyfin`: up only on status 200. A response with another status is
   * down but leaves `lastError` alone; only a transport failure writes it.
   */
  function JellyfinVerdict(httpCode: int): (v: Verdict)
    ensures v.up <==> httpCode == 200
    ensures v.up ==> v.error.None?
    ensures v.error.Some? <==> httpCode <= 0
    ensures v.error.Some? ==> v.error.value == ConnectionFailed(httpCode)
  {
    if httpCode > 0 then Verdict(httpCode == 200, None)
    else Verdict(false, Some(ConnectionFailed(httpCode)))
  }

  /**
   * `checkHttpGet`: up on status 200 when the expected text is the wildcard
   * `*` or occurs somewhere in the body.
   */
  function HttpGetVerdict(httpCode: int, body: string, expected: string): (v: Verdict)
    ensures v.up <==> httpCode == 200 && (expected == "*" || Contains(body, expected))
    ensures v.up <==> v.error.None?
    ensures httpCode <= 0 ==> v.error == Some(ConnectionFailed(httpCode))
    ensures httpCode > 0 && httpCode != 200 ==> v.error == Some(HttpStatusError(httpCode))
    ensures httpCode == 200 && !v.up ==> v.error == Some("Response mismatch")
  {
    if httpCode > 0 then
      if httpCode == 200 then
        if expected == "*" then Verdict(true, None)
        else if IndexOf(body, expected) >= 0 then Verdict(true, None)
        else Verdict(false, Some("Response mismatch"))
      else Verdict(false, Some(HttpStatusError(httpCode)))
    else Verdict(false, Some(ConnectionFailed(httpCode)))
  }

  /** `checkPing`: up iff the pinger reports success. */
  function PingVerdict(succeeded: bool): (v: Verdict)
    ensures v.up <==> succeeded
    ensures v.up <==> v.error.None?
    ensures !v.up ==> v.error == Some("Ping timeout")
  {
    if succeeded then Verdict(true, None) else Verdict(false, Some("Ping timeout"))
  }

  /** `http://host:port` as the HTTP strategies build it. */
  function Origin(s: Service): (origin: string)
    ensures |origin| > 8 + |s.host| && origin[..7] == "http://"
    ensures origin[7..7 + |s.host|] == s.host && origin[7 + |s.host|] == ':'
    ensures ParseDecimal(origin[8 + |s.host|..]) == Some(s.port)
  {
    DecimalRoundTrip(s.port);
    var origin := "http://" + s.host + ":" + Decimal(s.port);
    assert origin[8 + |s.host|..] == Decimal(s.port);
    origin
  }

  /** The request each strategy sends for a service. */
  function ProbeFor(k: Kind, s: Service): (p: Probe)
    ensures p.Echo? <==> k == Ping
    ensures k == HomeAssistant ==> p == HttpRequest(Origin(s) + "/api/")
    ensures k == Jellyfin ==> p == HttpRequest(Origin(s) + "/health")
    ensures k == HttpGet ==> p == HttpRequest(Origin(s) + s.path)
    ensures k == Ping ==> p == Echo(s.host, 3)
  {
    match k
    case HomeAssistant => HttpRequest(Origin(s) + "/api/")
    case Jellyfin => HttpRequest(Origin(s) + "/health")
    case HttpGet => HttpRequest(Origin(s) + s.path)
    case Ping => Echo(s.host, 3)
  }

  /** The `switch` of `checkServices`: the verdict of the strategy a kind selects. */
  function RunCheck(k: Kind, s: Service, transport: Probe -> Reply): (v: Verdict)
    ensures v.up ==> v.error.None?
    ensures !v.up && k != Jellyfin ==> v.error.Some?
    ensures k == HomeAssistant ==> (v.up <==> transport(ProbeFor(k, s)).httpCode > 0)
    ensures k == Jellyfin ==> (v.up <==> transport(ProbeFor(k, s)).httpCode == 200)
    ensures k == HttpGet ==>
      (v.up <==> transport(ProbeFor(k, s)).httpCode == 200 &&
                 (s.expectedResponse == "*" || Contains(transport(ProbeFor(k, s)).body, s.expectedResponse)))
    ensures k == Ping ==> (v.up <==> transport(ProbeFor(k, s)).pingSucceeded)
    ensures k == Ping && !v.up ==> v.error == Some("Ping timeout")
    ensures k != Ping && !v.up && transport(ProbeFor(k, s)).httpCode <= 0 ==>
      v.error == Some(ConnectionFailed(transport(ProbeFor(k, s)).httpCode))
    ensures k == HomeAssistant ==> v == HomeAssistantVerdict(transport(ProbeFor(k, s)).httpCode)
    ensures k == Jellyfin ==> v == JellyfinVerdict(transport(ProbeFor(k, s)).httpCode)
    ensures k == HttpGet ==>
      v == HttpGetVerdict(transport(ProbeFor(k, s)).httpCode, transport(ProbeFor(k, s)).body, s.expectedResponse)
    ensures k == Ping ==> v == PingVerdict(transport(ProbeFor(k, s)).pingSucceeded)
  {
    var reply := transport(ProbeFor(k, s));
    match k
    case HomeAssistant => HomeAssistantVerdict(reply.httpCode)
    case Jellyfin => JellyfinVerdict(reply.httpCode)
    case HttpGet => HttpGetVerdict(reply.httpCode, reply.body, s.expectedResponse)
    case Ping => PingVerdict(reply.pingSucceeded)
  }

  /** A hub that answers 404 on `/api/` counts as up. */
  lemma HomeAssistantNotFoundIsUp()
    ensures HomeAssistantVerdict(404) == Verdict(true, None)
  {
  }

  /** A media server answering 503 is down, and nothing is written to `lastError`. */
  lemma JellyfinUnavailableIsDown()
    ensures JellyfinVerdict(503) == Verdict(false, None)
  {
  }

  /** A 200 whose body lacks the expected text is a mismatch. */
  lemma HttpGetMismatch()
    ensures HttpGetVerdict(200, "status: degraded", "ok") == Verdict(false, Some("Response mismatch"))
  {
    AbsentFirstChar("status: degraded", "ok");
  }

  /** With the wildcard any 200 is up, whatever the body. */
  lemma HttpGetWildcard(body: string)
    ensures HttpGetVerdict(200, body, "*").up
  {
  }
}
