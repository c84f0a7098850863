/**
 * The global service table `services[MAX_SERVICES]` / `serviceCount`, the
 * bodies of the list, add and delete handlers, the scheduler (`loop` and
 * `checkServices`) and `saveServices` / `loadServices`, as a class whose
 * fields are the program's globals.
 */
module Registry {
  import opened Wrappers
  import opened Clock
  import opened Text
  import opened Services
  import opened Checks
  import opened Scheduler
  import opened Persistence

  /**
   * The parsed JSON body of an add request. Fields the body may omit are
   * optional; `name`, `type` and `host` are taken as the strings the JSON
   * library hands back.
   */
  datatype AddRequest = AddRequest(
    name: string,
    typeName: string,
    host: string,
    port: Option<int>,
    path: Option<string>,
    expectedResponse: Option<string>,
    checkInterval: Option<int>)

  /** The answers of the add handler. */
  datatype AddOutcome = Added(id: string) | MaximumReached | InvalidJson | InvalidType

  function AddStatus(outcome: AddOutcome): (status: int)
    ensures status == 200 <==> outcome.Added?
    ensures status != 200 ==> status == 400
  {
    if outcome.Added? then 200 else 400
  }

  /**
   * The record the add handler builds for a request and a generated id, or
   * None when the type string names no strategy. Omitted fields get port 80,
   * path "/", expected response "*" and a 60 s interval; the status is cold.
   */
  function Create(request: AddRequest, id: string): (r: Option<Service>)
    ensures r.Some? <==> ParseType(request.typeName).Some?
    ensures r.Some? ==>
      && Cold(r.value)
      && r.value.id == id && r.value.name == request.name && r.value.host == request.host
      && TypeName(r.value.typeCode) == request.typeName
      && r.value.port == request.port.GetOr(80)
      && r.value.path == request.path.GetOr("/")
      && r.value.expectedResponse == request.expectedResponse.GetOr("*")
      && r.value.checkInterval == request.checkInterval.GetOr(60)
  {
    match ParseType(request.typeName)
    case None => None
    case Some(k) =>
      Some(Service(id, request.name, Code(k), request.host,
                   request.port.GetOr(80), request.path.GetOr("/"),
                   request.expectedResponse.GetOr("*"), request.checkInterval.GetOr(60),
                   false, 0, 0, "", -1))
  }

  /** Index of the first entry with the given id, or -1. */
  function FirstMatch(entries: seq<Service>, id: string): (k: int)
    ensures -1 <= k < |entries|
    ensures k == -1 <==> forall j :: 0 <= j < |entries| ==> entries[j].id != id
    ensures k >= 0 ==> entries[k].id == id && forall j :: 0 <= j < k ==> entries[j].id != id
    decreases |entries|
  {
    if |entries| == 0 then -1
    else
      var earlier := FirstMatch(entries[..|entries| - 1], id);
      if earlier == -1 && entries[|entries| - 1].id == id then |entries| - 1 else earlier
  }

  /** The table with entry `k` taken out and every other entry kept in order. */
  function RemoveAt(entries: seq<Service>, k: nat): (r: seq<Service>)
    requires k < |entries|
    ensures |r| == |entries| - 1
    ensures forall j :: 0 <= j < k ==> r[j] == entries[j]
    ensures forall j :: k <= j < |r| ==> r[j] == entries[j + 1]
  {
    entries[..k] + entries[k + 1..]
  }

  /** No two live entries share an id. */
  predicate UniqueIds(entries: seq<Service>)
  {
    forall i, j :: 0 <= i < j < |entries| ==> entries[i].id != entries[j].id
  }

  /** Appending a record whose id is not yet in use keeps the ids unique. */
  lemma AddKeepsIdsUnique(entries: seq<Service>, s: Service)
    requires UniqueIds(entries)
    requires FirstMatch(entries, s.id) == -1
    ensures UniqueIds(entries + [s])
  {
  }

  /**
   * With unique ids, deleting the first match deletes the only one: the id
   * is gone afterwards and the remaining ids stay unique.
   */
  lemma DeleteRemovesId(entries: seq<Service>, id: string)
    requires UniqueIds(entries)
    requires FirstMatch(entries, id) >= 0
    ensures UniqueIds(RemoveAt(entries, FirstMatch(entries, id)))
    ensures FirstMatch(RemoveAt(entries, FirstMatch(entries, id)), id) == -1
  {
    var k := FirstMatch(entries, id);
    var r := RemoveAt(entries, k);
    forall j | 0 <= j < |r| ensures r[j].id != id {
      if j >= k {
        assert r[j] == entries[j + 1];
        assert entries[k].id != entries[j + 1].id;
      }
    }
    forall i, j | 0 <= i < j < |r| ensures r[i].id != r[j].id {
      var i', j' := if i < k then i else i + 1, if j < k then j else j + 1;
      assert r[i] == entries[i'] && r[j] == entries[j'];
    }
  }

  /** The id of a delete request: the part of the URL after its last '/'. */
  function IdFromUrl(url: string): (id: string)
    ensures |id| <= |url| && id == url[|url| - |id|..]
    ensures '/' !in id
    ensures |id| < |url| ==> url[|url| - |id| - 1] == '/'
  {
    url[LastIndexOf(url, '/') + 1..]
  }

  /**
   * `secondsSinceLastCheck` as the list handler computes it: whole seconds
   * since the last check, or -1 while `lastCheck` is still 0.
   */
  function SecondsSince(now: U32, lastCheck: U32): (r: int)
    ensures r == -1 <==> lastCheck == 0
    ensures lastCheck > 0 ==> 0 <= r && r * 1000 <= Elapsed(now, lastCheck) < r * 1000 + 1000
  {
    if lastCheck > 0 then Elapsed(now, lastCheck) / 1000 else -1
  }

  /** One object of the list response. */
  datatype Listed = Listed(
    id: string,
    name: string,
    typeName: string,
    host: string,
    port: int,
    path: string,
    expectedResponse: string,
    checkInterval: int,
    isUp: bool,
    secondsSinceLastCheck: int,
    lastError: string)

  /**
   * One response object: the record's fields with its type as a name. A known
   * type is listed under the very name the add handler accepts for it.
   */
  function ToListed(s: Service): (l: Listed)
    ensures l.id == s.id && l.isUp == s.isUp && l.lastError == s.lastError
    ensures l.secondsSinceLastCheck == s.secondsSinceLastCheck
    ensures l.name == s.name && l.host == s.host && l.port == s.port && l.path == s.path
    ensures l.expectedResponse == s.expectedResponse && l.checkInterval == s.checkInterval
  {
    Listed(s.id, s.name, TypeName(s.typeCode), s.host, s.port, s.path, s.expectedResponse,
           s.checkInterval, s.isUp, s.secondsSinceLastCheck, s.lastError)
  }

  /** A listed type name parses back, through the add handler, to the stored kind exactly when the code is known. */
  lemma ListedTypeReadsBack(s: Service)
    ensures ParseType(ToListed(s).typeName).Some? <==> KindOf(s.typeCode).Some?
    ensures KindOf(s.typeCode).Some? ==> ParseType(ToListed(s).typeName) == KindOf(s.typeCode)
  {
  }

  /**
   * The body of the `checkServices` loop for one slot: skip it when it is not
   * due, otherwise stamp it, run its strategy and record the verdict.
   */
  method CheckSlot(s: Service, now: U32, transport: Probe -> Reply) returns (entry: Service)
    ensures entry == CheckEntry(s, now, transport)
    ensures ToDurable(entry) == ToDurable(s)
  {
    if Elapsed(now, s.lastCheck) < IntervalMillis(s.checkInterval) {
      return s;
    }
    entry := s.(lastCheck := now);
    match KindOf(entry.typeCode) {
      case Some(k) =>
        var verdict := RunCheck(k, entry, transport);
        entry := entry.(isUp := verdict.up);
        if verdict.error.Some? {
          entry := entry.(lastError := verdict.error.value);
        }
      case None =>
    }
    if entry.isUp {
      entry := entry.(lastUptime := now, lastError := "");
    }
  }

  class Monitor {
    /** `services[MAX_SERVICES]`: slots at and past `count` hold stale or blank records. */
    var services: array<Service>
    /** `serviceCount`. */
    var count: nat
    /** The static `lastCheckTime` of `loop`. */
    var lastTick: U32
    /** The records in `/services.json`; None when the file is missing or does not parse. */
    var store: Option<seq<Durable>>

    ghost predicate Valid()
      reads this
    {
      services.Length == MaxServices && count <= MaxServices
    }

    /** The live part of the table, in order. */
    ghost function Entries(): seq<Service>
      reads this, services
      requires Valid()
    {
      services[..count]
    }

    /** The store holds exactly the configuration of the live table. */
    ghost predicate Synced()
      reads this, services
      requires Valid()
    {
      store == Some(Project(Entries()))
    }

    /** The globals at power-on, with `file` on the flash. */
    constructor (file: Option<seq<Durable>>)
      ensures Valid() && fresh(services)
      ensures Entries() == [] && lastTick == 0 && store == file
      ensures forall j :: 0 <= j < services.Length ==> services[j] == Blank()
    {
      services := new Service[MaxServices](_ => Blank());
      count := 0;
      lastTick := 0;
      store := file;
    }

    /** The loop of `saveServices` that projects the table onto its durable records. */
    method Snapshot() returns (records: seq<Durable>)
      requires Valid()
      ensures |records| == count
      ensures forall j :: 0 <= j < count ==> records[j] == ToDurable(services[j])
    {
      records := [];
      for i := 0 to count
        invariant |records| == i
        invariant forall j :: 0 <= j < i ==> records[j] == ToDurable(services[j])
      {
        records := records + [ToDurable(services[i])];
      }
    }

    /** `saveServices`: the store is overwritten with the table's configuration. */
    method Save()
      requires Valid()
      modifies this`store
      ensures Synced()
    {
      var records := Snapshot();
      assert records == Project(Entries());
      store := Some(records);
    }

    /**
     * `loadServices`: a missing or unparsable store leaves the table as it
     * was; otherwise the table is rebuilt from at most `MaxServices` records.
     */
    method Load()
      requires Valid()
      modifies this`count, services
      ensures Valid()
      ensures store.None? ==> count == old(count) && services[..] == old(services[..])
      ensures store.Some? ==> Entries() == Restore(store.value)
    {
      if store.None? {
        return;
      }
      var records := store.value;
      count := 0;
      var i := 0;
      while i < |records|
        invariant 0 <= i <= |records| && count == i <= MaxServices
        invariant forall j :: 0 <= j < count ==> services[j] == ColdService(records[j])
      {
        if count >= MaxServices {
          break;
        }
        services[count] := ColdService(records[i]);
        count := count + 1;
        i := i + 1;
      }
      assert count == |Restore(records)|;
    }

    /** The search loop of the delete handler: the first slot holding `id`, or -1. */
    method IndexOfId(id: string) returns (found: int)
      requires Valid()
      ensures found == FirstMatch(Entries(), id)
    {
      var i := 0;
      while i < count
        invariant 0 <= i <= count
        invariant forall j :: 0 <= j < i ==> services[j].id != id
      {
        if services[i].id == id {
          return i;
        }
        i := i + 1;
      }
      return -1;
    }

    /**
     * The add handler: refuse when full, on a body that is not JSON and on an
     * unknown type; otherwise append the new record and save.
     */
    method Add(body: Option<AddRequest>, newId: string) returns (outcome: AddOutcome)
      requires Valid()
      modifies this`count, this`store, services
      ensures Valid()
      ensures old(count) >= MaxServices ==> outcome == MaximumReached
      ensures old(count) < MaxServices && body.None? ==> outcome == InvalidJson
      ensures old(count) < MaxServices && body.Some? && Create(body.value, newId).None? ==>
        outcome == InvalidType
      ensures old(count) < MaxServices && body.Some? && Create(body.value, newId).Some? ==>
        && outcome == Added(newId)
        && Entries() == old(Entries()) + [Create(body.value, newId).value]
        && Synced()
      ensures !outcome.Added? ==>
        count == old(count) && services[..] == old(services[..]) && store == old(store)
    {
      if count >= MaxServices {
        return MaximumReached;
      }
      if body.None? {
        return InvalidJson;
      }
      var created := Create(body.value, newId);
      if created.None? {
        return InvalidType;
      }
      services[count] := created.value;
      count := count + 1;
      Save();
      outcome := Added(newId);
    }

    /**
     * The delete handler: the id is the part of the request URL after its
     * last '/'.
     */
    method HandleDelete(url: string) returns (status: int)
      requires Valid()
      modifies this`count, this`store, services
      ensures Valid()
      ensures FirstMatch(old(Entries()), IdFromUrl(url)) == -1 ==>
        status == 404 && count == old(count) && services[..] == old(services[..]) && store == old(store)
      ensures FirstMatch(old(Entries()), IdFromUrl(url)) >= 0 ==>
        && status == 200
        && Entries() == RemoveAt(old(Entries()), FirstMatch(old(Entries()), IdFromUrl(url)))
        && Synced()
    {
      status := Delete(IdFromUrl(url));
    }

    /**
     * The body of the delete handler once it has the id: the first entry
     * holding it is removed by shifting the tail left, and the table is
     * saved; with no such entry the answer is 404 and nothing changes.
     */
    method Delete(id: string) returns (status: int)
      requires Valid()
      modifies this`count, this`store, services
      ensures Valid()
      ensures FirstMatch(old(Entries()), id) == -1 ==>
        status == 404 && count == old(count) && services[..] == old(services[..]) && store == old(store)
      ensures FirstMatch(old(Entries()), id) >= 0 ==>
        && status == 200
        && Entries() == RemoveAt(old(Entries()), FirstMatch(old(Entries()), id))
        && Synced()
    {
      var found := IndexOfId(id);
      if found == -1 {
        return 404;
      }
      RemoveSlot(found);
      Save();
      status := 200;
    }

    /** The shift loop of the delete handler: slot `k` is overwritten by the tail, the count drops. */
    method RemoveSlot(k: nat)
      requires Valid() && k < count
      modifies this`count, services
      ensures Valid() && count == old(count) - 1
      ensures Entries() == RemoveAt(old(Entries()), k)
      ensures forall j :: count <= j < services.Length ==> services[j] == old(services[j])
    {
      var i := k;
      while i < count - 1
        invariant Valid() && count == old(count)
        invariant k <= i <= count - 1
        invariant forall j :: 0 <= j < k ==> services[j] == old(services[j])
        invariant forall j :: k <= j < i ==> services[j] == old(services[j + 1])
        invariant services[i..] == old(services[i..])
      {
        services[i] := services[i + 1];
        i := i + 1;
      }
      count := count - 1;
    }

    /**
     * The list handler: every live entry gets its `secondsSinceLastCheck`
     * recomputed, and the response lists the entries in table order.
     */
    method List(now: U32) returns (listing: seq<Listed>)
      requires Valid()
      modifies services
      ensures forall j :: 0 <= j < count ==>
        services[j] == old(services[j]).(secondsSinceLastCheck := SecondsSince(now, old(services[j]).lastCheck))
      ensures forall j :: count <= j < services.Length ==> services[j] == old(services[j])
      ensures |listing| == count && forall j :: 0 <= j < count ==> listing[j] == ToListed(services[j])
      ensures Project(Entries()) == old(Project(Entries()))
    {
      ghost var before := Entries();
      listing := [];
      for i := 0 to count
        invariant |listing| == i
        invariant forall j :: 0 <= j < i ==>
          services[j] == old(services[j]).(secondsSinceLastCheck := SecondsSince(now, old(services[j]).lastCheck))
        invariant services[i..] == old(services[i..])
        invariant forall j :: 0 <= j < i ==> listing[j] == ToListed(services[j])
      {
        var entry := services[i].(secondsSinceLastCheck := SecondsSince(now, services[i].lastCheck));
        services[i] := entry;
        listing := listing + [ToListed(entry)];
      }
      SameConfigurationSameStore(Entries(), before);
    }

    /**
     * `checkServices`: every live entry that is due is stamped, checked
     * through the transport and given its new status; the others stay as they are.
     */
    method CheckServices(now: U32, transport: Probe -> Reply)
      requires Valid()
      modifies services
      ensures forall j :: 0 <= j < count ==> services[j] == CheckEntry(old(services[j]), now, transport)
      ensures forall j :: count <= j < services.Length ==> services[j] == old(services[j])
      ensures Project(Entries()) == old(Project(Entries()))
    {
      ghost var before := Entries();
      for i := 0 to count
        invariant forall j :: 0 <= j < i ==> services[j] == CheckEntry(old(services[j]), now, transport)
        invariant services[i..] == old(services[i..])
        invariant forall j :: 0 <= j < count ==> ToDurable(services[j]) == ToDurable(before[j])
      {
        var entry := CheckSlot(services[i], now, transport);
        services[i] := entry;
      }
      SameConfigurationSameStore(Entries(), before);
    }

    /** `loop`: run `checkServices` when a tick period has passed since the last run. */
    method Loop(now: U32, transport: Probe -> Reply)
      requires Valid()
      modifies this`lastTick, services
      ensures TickDue(now, old(lastTick)) ==>
        && lastTick == now
        && (forall j :: 0 <= j < count ==> services[j] == CheckEntry(old(services[j]), now, transport))
        && (forall j :: count <= j < services.Length ==> services[j] == old(services[j]))
      ensures !TickDue(now, old(lastTick)) ==> lastTick == old(lastTick) && services[..] == old(services[..])
      ensures Project(Entries()) == old(Project(Entries()))
    {
      if Elapsed(now, lastTick) >= TickPeriod {
        CheckServices(now, transport);
        lastTick := now;
      }
    }
  }

  /** Power-on as far as the table is concerned: the globals, then `loadServices`. */
  method Boot(file: Option<seq<Durable>>) returns (m: Monitor)
    ensures fresh(m) && m.Valid() && m.store == file
    ensures file.None? ==> m.Entries() == []
    ensures file.Some? ==> m.Entries() == Restore(file.value)
  {
    m := new Monitor(file);
    m.Load();
  }
}
