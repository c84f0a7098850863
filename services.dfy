/**
 * The service record of the monitor and the mapping between the service
 * type enum, its stored integer and its wire name.
 */
module Services {
  import opened Wrappers
  import opened Clock

  /** Capacity of the service table. */
  const MaxServices: nat := 20

  /** The four check strategies a service can ask for. */
  datatype Kind = HomeAssistant | Jellyfin | HttpGet | Ping

  /** The enum's integer value, as written to the store. */
  function Code(k: Kind): (c: int)
    ensures 0 <= c < 4
  {
    match k
    case HomeAssistant => 0
    case Jellyfin => 1
    case HttpGet => 2
    case Ping => 3
  }

  /**
   * The integer read back from the store, cast to the enum without
   * validation: codes outside the four enumerators name no strategy.
   */
  function KindOf(code: int): (k: Option<Kind>)
    ensures k.Some? <==> 0 <= code < 4
    ensures k.Some? ==> Code(k.value) == code
  {
    if code == 0 then Some(HomeAssistant)
    else if code == 1 then Some(Jellyfin)
    else if code == 2 then Some(HttpGet)
    else if code == 3 then Some(Ping)
    else None
  }

  lemma KindOfCode(k: Kind)
    ensures KindOf(Code(k)) == Some(k)
  {
  }

  /** `getServiceTypeString`: the wire name of a stored type, "unknown" for any other code. */
  function TypeName(code: int): (s: string)
    ensures KindOf(code).None? <==> s == "unknown"
  {
    match KindOf(code)
    case Some(HomeAssistant) => "home_assistant"
    case Some(Jellyfin) => "jellyfin"
    case Some(HttpGet) => "http_get"
    case Some(Ping) => "ping"
    case None => "unknown"
  }

  /** The if-chain of the add handler that maps the `type` string of a request to the enum. */
  function ParseType(s: string): (k: Option<Kind>)
    ensures k.Some? <==> s in {"home_assistant", "jellyfin", "http_get", "ping"}
    ensures k.Some? ==> TypeName(Code(k.value)) == s
  {
    if s == "home_assistant" then Some(HomeAssistant)
    else if s == "jellyfin" then Some(Jellyfin)
    else if s == "http_get" then Some(HttpGet)
    else if s == "ping" then Some(Ping)
    else None
  }

  /** `getServiceTypeString` inverts the request parse on all four kinds. */
  lemma ParseTypeName(k: Kind)
    ensures ParseType(TypeName(Code(k))) == Some(k)
  {
  }

  /** One slot of the service table: configuration, then scheduler-owned status. */
  datatype Service = Service(
    id: string,
    name: string,
    typeCode: int,
    host: string,
    port: int,
    path: string,
    expectedResponse: string,
    checkInterval: int,
    isUp: bool,
    lastCheck: U32,
    lastUptime: U32,
    lastError: string,
    secondsSinceLastCheck: int)

  /** The fields written to the store: everything but the status. */
  datatype Durable = Durable(
    id: string,
    name: string,
    typeCode: int,
    host: string,
    port: int,
    path: string,
    expectedResponse: string,
    checkInterval: int)

  /** The durable part; together with a cold status it determines the whole record. */
  function ToDurable(s: Service): (d: Durable)
    ensures Cold(s) ==> s == Service(d.id, d.name, d.typeCode, d.host, d.port, d.path,
                                     d.expectedResponse, d.checkInterval, false, 0, 0, "", -1)
  {
    Durable(s.id, s.name, s.typeCode, s.host, s.port, s.path, s.expectedResponse, s.checkInterval)
  }

  /** The status a freshly added or freshly loaded service starts with. */
  predicate Cold(s: Service)
  {
    && !s.isUp
    && s.lastCheck == 0
    && s.lastUptime == 0
    && s.lastError == ""
    && s.secondsSinceLastCheck == -1
  }

  /** A service with the given configuration and a cold status. */
  function ColdService(d: Durable): (s: Service)
    ensures Cold(s) && ToDurable(s) == d
  {
    Service(d.id, d.name, d.typeCode, d.host, d.port, d.path, d.expectedResponse, d.checkInterval,
            false, 0, 0, "", -1)
  }

  /** A slot of the zero-initialised global table before anything is stored in it. */
  function Blank(): (s: Service)
    ensures KindOf(s.typeCode) == Some(HomeAssistant)
    ensures !s.isUp && s.lastCheck == 0 && s.lastUptime == 0 && s.lastError == ""
    ensures s.secondsSinceLastCheck == 0 && !Cold(s)
  {
    Service("", "", 0, "", 0, "", "", 0, false, 0, 0, "", 0)
  }
}
