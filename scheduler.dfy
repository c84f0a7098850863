/**
 * What one pass of `checkServices` does to one table entry, as a function
 * of the entry, the current time and the transport.
 */
module Scheduler {
  import opened Clock
  import opened Services
  import opened Checks

  /**
   * The entry after the pass: untouched when not due; otherwise stamped with
   * `now`, given the strategy's verdict (no strategy runs for an unknown type
   * code), and, when up, given `lastUptime = now` and a cleared error.
   */
  function CheckEntry(s: Service, now: U32, transport: Probe -> Reply): (r: Service)
    ensures !Due(now, s.lastCheck, s.checkInterval) ==> r == s
    ensures Due(now, s.lastCheck, s.checkInterval) ==> r.lastCheck == now
    ensures ToDurable(r) == ToDurable(s) && r.secondsSinceLastCheck == s.secondsSinceLastCheck
    ensures Due(now, s.lastCheck, s.checkInterval) && KindOf(s.typeCode).Some? ==>
      var v := RunCheck(KindOf(s.typeCode).value, s, transport);
      && r.isUp == v.up
      && (v.up ==> r.lastUptime == now && r.lastError == "")
      && (!v.up ==> r.lastUptime == s.lastUptime && r.lastError == v.error.GetOr(s.lastError))
    ensures Due(now, s.lastCheck, s.checkInterval) && KindOf(s.typeCode).None? ==>
      r == (if s.isUp then s.(lastCheck := now, lastUptime := now, lastError := "")
            else s.(lastCheck := now))
  {
    if !Due(now, s.lastCheck, s.checkInterval) then s
    else
      var stamped := s.(lastCheck := now);
      var checked :=
        match KindOf(s.typeCode)
        case None => stamped
        case Some(k) =>
          var v := RunCheck(k, stamped, transport);
          stamped.(isUp := v.up, lastError := v.error.GetOr(stamped.lastError));
      if checked.isUp then checked.(lastUptime := now, lastError := "") else checked
  }

  /**
   * A service checked every 10 s, seen by ticks at any times without
   * roll-over in between, is checked again at or after 10 000 ms and not before.
   */
  lemma TenSecondInterval(s: Service, now: U32, transport: Probe -> Reply)
    requires s.checkInterval == 10 && s.lastCheck <= now
    ensures now - s.lastCheck < 10000 ==> CheckEntry(s, now, transport) == s
    ensures now - s.lastCheck >= 10000 ==> CheckEntry(s, now, transport).lastCheck == now
  {
    DueWithoutWrap(now, s.lastCheck, s.checkInterval);
  }
}
