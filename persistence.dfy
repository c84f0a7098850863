/**
 * The store `/services.json`, abstracted as the sequence of durable records
 * it holds (the JSON text and the file bytes are left to the library).
 */
module Persistence {
  import opened Services

  /** What `saveServices` writes for a table: each entry's durable fields, in table order. */
  function Project(entries: seq<Service>): (records: seq<Durable>)
    ensures |records| == |entries|
  {
    seq(|entries|, i requires 0 <= i < |entries| => ToDurable(entries[i]))
  }

  /**
   * What `loadServices` rebuilds from a parsed store: the first `MaxServices`
   * records, each with its status reset.
   */
  function Restore(records: seq<Durable>): (entries: seq<Service>)
    ensures |entries| == if |records| <= MaxServices then |records| else MaxServices
    ensures forall i :: 0 <= i < |entries| ==> Cold(entries[i]) && ToDurable(entries[i]) == records[i]
  {
    var n := if |records| <= MaxServices then |records| else MaxServices;
    seq(n, i requires 0 <= i < n => ColdService(records[i]))
  }

  /**
   * Round trip: loading what was saved gives back the same number of entries
   * with, in the same order, the same configuration, and a cold status.
   */
  lemma RoundTrip(entries: seq<Service>)
    requires |entries| <= MaxServices
    ensures |Restore(Project(entries))| == |entries|
    ensures forall i :: 0 <= i < |entries| ==>
      ToDurable(Restore(Project(entries))[i]) == ToDurable(entries[i]) && Cold(Restore(Project(entries))[i])
  {
  }

  /** Saving what was loaded writes back the loaded records, type codes included. */
  lemma SaveAfterLoad(records: seq<Durable>)
    ensures Project(Restore(records)) == if |records| <= MaxServices then records else records[..MaxServices]
  {
  }

  /** Loading then saving a second time changes nothing in the store. */
  lemma SaveLoadIdempotent(records: seq<Durable>)
    ensures Project(Restore(Project(Restore(records)))) == Project(Restore(records))
  {
    SaveAfterLoad(records);
    SaveAfterLoad(Project(Restore(records)));
  }

  /** Tables that agree on every entry's configuration are saved identically. */
  lemma SameConfigurationSameStore(a: seq<Service>, b: seq<Service>)
    requires |a| == |b|
    requires forall i :: 0 <= i < |a| ==> ToDurable(a[i]) == ToDurable(b[i])
    ensures Project(a) == Project(b)
  {
  }
}
