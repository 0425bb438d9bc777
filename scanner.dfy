/** The reconciliation pass of `main`: one scan run row, then for every
    host with a MAC the three helper writes, then the run row's final
    counts, all in one transaction that commits or rolls back whole. */
module Scanner {
  import opened Wrappers
  import opened NmapXml
  import opened Registry

  /** `mac = host.get('mac_address')` is truthy: None and the empty string
      are skipped alike. */
  predicate HasMac(host: HostRecord)
  {
    host.mac.Some? && host.mac.value != ""
  }

  /** The hosts the loop does not skip, in their order (ObservedConcat,
      ObservedMembers). */
  function Observed(hosts: seq<HostRecord>): (obs: seq<HostRecord>)
    ensures |obs| <= |hosts|
    ensures forall i | 0 <= i < |obs| :: HasMac(obs[i])
    decreases |hosts|
  {
    if |hosts| == 0 then []
    else
      var last := hosts[|hosts| - 1];
      Observed(hosts[..|hosts| - 1]) + (if HasMac(last) then [last] else [])
  }

  /** A batch split in two: the hosts processed from the first part come
      before those from the second. */
  lemma {:induction false} ObservedConcat(a: seq<HostRecord>, b: seq<HostRecord>)
    ensures Observed(a + b) == Observed(a) + Observed(b)
    decreases |b|
  {
    if |b| == 0 {
      assert a + b == a;
    } else {
      var init := b[..|b| - 1];
      assert b[..|b| - 1] == init;
      assert (a + b)[..|a + b| - 1] == a + init;
      ObservedConcat(a, init);
    }
  }

  /** The loop processes exactly the hosts with a non-empty MAC. */
  lemma {:induction false} ObservedMembers(hosts: seq<HostRecord>)
    ensures forall h | h in Observed(hosts) :: h in hosts && HasMac(h)
    ensures forall h | h in hosts && HasMac(h) :: h in Observed(hosts)
    decreases |hosts|
  {
    if |hosts| > 0 {
      var init := hosts[..|hosts| - 1];
      assert hosts == init + [hosts[|hosts| - 1]];
      ObservedMembers(init);
    }
  }

  /** How many hosts have status `'up'`. */
  function CountUp(hosts: seq<HostRecord>): (n: nat)
    ensures n <= |hosts|
    decreases |hosts|
  {
    if |hosts| == 0 then 0
    else CountUp(hosts[..|hosts| - 1]) + UpFlag(hosts[|hosts| - 1].status)
  }

  /** How many of the hosts the loop processes carry this MAC. */
  function Occurrences(hosts: seq<HostRecord>, mac: Mac): nat
    decreases |hosts|
  {
    if |hosts| == 0 then 0
    else
      var last := hosts[|hosts| - 1];
      Occurrences(hosts[..|hosts| - 1], mac) + (if HasMac(last) && last.mac == Some(mac) then 1 else 0)
  }

  /** How many of those were up. */
  function UpOccurrences(hosts: seq<HostRecord>, mac: Mac): (n: nat)
    ensures n <= Occurrences(hosts, mac)
    decreases |hosts|
  {
    if |hosts| == 0 then 0
    else
      var last := hosts[|hosts| - 1];
      UpOccurrences(hosts[..|hosts| - 1], mac) + (if HasMac(last) && last.mac == Some(mac) then UpFlag(last.status) else 0)
  }

  /** The IP of the last processed host that carries this MAC and an IP. */
  function LastIp(hosts: seq<HostRecord>, mac: Mac): Option<Ip>
    decreases |hosts|
  {
    if |hosts| == 0 then None
    else
      var last := hosts[|hosts| - 1];
      if HasMac(last) && last.mac == Some(mac) && last.ip.Some? then last.ip
      else LastIp(hosts[..|hosts| - 1], mac)
  }

  /** The device_scan_status rows a pass appends: one per processed host,
      in order, each with that host's MAC and up flag and the run's id. */
  function StatusRows(hosts: seq<HostRecord>, scanId: nat): (rows: seq<ScanStatus>)
    ensures |rows| == |Observed(hosts)|
    ensures forall i | 0 <= i < |rows| ::
              rows[i] == ScanStatus(UpFlag(Observed(hosts)[i].status), Observed(hosts)[i].mac.value, scanId)
    decreases |hosts|
  {
    if |hosts| == 0 then []
    else
      var last := hosts[|hosts| - 1];
      StatusRows(hosts[..|hosts| - 1], scanId)
        + (if HasMac(last) then [ScanStatus(UpFlag(last.status), last.mac.value, scanId)] else [])
  }

  /** One iteration of the host loop: a skipped host touches no table; a
      processed one leaves its MAC with a device row and one more status
      row, and scan_runs is not touched. */
  function HostStep(t: Tables, host: HostRecord, scanId: nat, now: Time): (r: Tables)
    ensures !HasMac(host) ==> r == t
    ensures HasMac(host) ==> host.mac.value in r.devices && |r.scanStatus| == |t.scanStatus| + 1
    ensures r.scanRuns == t.scanRuns
  {
    if !HasMac(host) then t
    else Tables(t.scanRuns,
                DeviceUpsert(t.devices, host, now),
                DeviceIpUpsert(t.deviceIps, host, now),
                StatusInsert(t.scanStatus, scanId, host))
  }

  /** The host loop over a whole batch; it never touches scan_runs. */
  function ApplyHosts(t: Tables, hosts: seq<HostRecord>, scanId: nat, now: Time): (r: Tables)
    ensures r.scanRuns == t.scanRuns
    decreases |hosts|
  {
    if |hosts| == 0 then t
    else HostStep(ApplyHosts(t, hosts[..|hosts| - 1], scanId, now), hosts[|hosts| - 1], scanId, now)
  }

  /** The tables a committed pass leaves: the run row inserted, the host
      loop applied, and the run row finalised with the loop's counts. A
      pass that starts from valid tables with `scanId` as the next id
      leaves valid tables for the next id. */
  function PassResult(t: Tables, hosts: seq<HostRecord>, scanId: nat, now: Time): (r: Tables)
    ensures TablesValid(t, scanId) ==> TablesValid(r, scanId + 1)
  {
    ApplyHostsKeepsInvariant(t.(scanRuns := StartRun(t.scanRuns, scanId, now)), hosts, scanId, now);
    var started := t.(scanRuns := StartRun(t.scanRuns, scanId, now));
    var done := ApplyHosts(started, hosts, scanId, now);
    var obs := Observed(hosts);
    done.(scanRuns := FinishRun(done.scanRuns, scanId, |obs|, CountUp(obs), now))
  }

  // ---------------------------------------------------------------------
  // What the host loop does to each table

  /** The host loop keeps the device and device_ips invariants. */
  lemma {:induction false} ApplyHostsKeepsInvariant(t: Tables, hosts: seq<HostRecord>, scanId: nat, now: Time)
    ensures var r := ApplyHosts(t, hosts, scanId, now);
      DevicesWellFormed(t.devices) && IpsWellFormed(t.deviceIps) ==>
        DevicesWellFormed(r.devices) && IpsWellFormed(r.deviceIps)
    decreases |hosts|
  {
    if |hosts| > 0 {
      ApplyHostsKeepsInvariant(t, hosts[..|hosts| - 1], scanId, now);
    }
  }

  /** device_scan_status only grows, by exactly one row per processed host,
      each carrying this run's id. */
  lemma {:induction false} ApplyHostsAppendsStatus(t: Tables, hosts: seq<HostRecord>, scanId: nat, now: Time)
    ensures ApplyHosts(t, hosts, scanId, now).scanStatus == t.scanStatus + StatusRows(hosts, scanId)
    decreases |hosts|
  {
    if |hosts| > 0 {
      ApplyHostsAppendsStatus(t, hosts[..|hosts| - 1], scanId, now);
    }
  }

  /** A device's counters after the loop: total_scans grows by the number
      of processed hosts with its MAC and up_scans by those of them that
      were up; a row exists afterwards exactly when it existed before or
      the MAC was processed. */
  lemma {:induction false} ApplyHostsCounters(t: Tables, hosts: seq<HostRecord>, scanId: nat, now: Time, mac: Mac)
    ensures var r := ApplyHosts(t, hosts, scanId, now).devices;
      && (mac in r <==> mac in t.devices || Occurrences(hosts, mac) > 0)
      && (mac in r ==> r[mac].totalScans == (if mac in t.devices then t.devices[mac].totalScans else 0) + Occurrences(hosts, mac))
      && (mac in r ==> r[mac].upScans == (if mac in t.devices then t.devices[mac].upScans else 0) + UpOccurrences(hosts, mac))
    decreases |hosts|
  {
    if |hosts| > 0 {
      ApplyHostsCounters(t, hosts[..|hosts| - 1], scanId, now, mac);
    }
  }

  /** The loop keeps every device's history: first_seen stays, counters
      do not decrease and a known hostname or vendor is never erased. */
  lemma {:induction false} ApplyHostsKeepsHistory(t: Tables, hosts: seq<HostRecord>, scanId: nat, now: Time, mac: Mac)
    requires mac in t.devices
    ensures mac in ApplyHosts(t, hosts, scanId, now).devices
    ensures KeepsHistory(t.devices[mac], ApplyHosts(t, hosts, scanId, now).devices[mac])
    decreases |hosts|
  {
    if |hosts| > 0 {
      ApplyHostsKeepsHistory(t, hosts[..|hosts| - 1], scanId, now, mac);
    }
  }

  /** A MAC no processed host carries keeps its device row and all its
      device_ips rows exactly as they were. */
  lemma {:induction false} ApplyHostsUntouched(t: Tables, hosts: seq<HostRecord>, scanId: nat, now: Time, mac: Mac)
    requires Occurrences(hosts, mac) == 0
    ensures var r := ApplyHosts(t, hosts, scanId, now);
      && (mac in r.devices <==> mac in t.devices)
      && (mac in t.devices ==> r.devices[mac] == t.devices[mac])
      && (forall ip :: (mac, ip) in r.deviceIps <==> (mac, ip) in t.deviceIps)
      && (forall ip | (mac, ip) in t.deviceIps :: r.deviceIps[(mac, ip)] == t.deviceIps[(mac, ip)])
    decreases |hosts|
  {
    if |hosts| > 0 {
      ApplyHostsUntouched(t, hosts[..|hosts| - 1], scanId, now, mac);
    }
  }

  /** An upsert for one MAC leaves the current IPs of every other MAC alone. */
  lemma CurrentIpsOfOtherMac(ips: map<(Mac, Ip), DeviceIp>, host: HostRecord, now: Time, mac: Mac)
    requires host.mac != Some(mac)
    ensures CurrentIps(DeviceIpUpsert(ips, host, now), mac) == CurrentIps(ips, mac)
  {
    var r := DeviceIpUpsert(ips, host, now);
    forall ip ensures ip in CurrentIps(r, mac) <==> ip in CurrentIps(ips, mac) {
      if ip in CurrentIps(r, mac) {
        assert (mac, ip) in r && r[(mac, ip)].isCurrent;
      }
      if ip in CurrentIps(ips, mac) {
        assert (mac, ip) in ips && ips[(mac, ip)].isCurrent;
      }
    }
  }

  /** After the loop a MAC seen with an IP has exactly one current
      device_ips row, the one for the last IP it was seen with; a MAC
      never seen with an IP keeps the current rows it had. */
  lemma {:induction false} ApplyHostsCurrentIp(t: Tables, hosts: seq<HostRecord>, scanId: nat, now: Time, mac: Mac)
    ensures var r := ApplyHosts(t, hosts, scanId, now).deviceIps;
      && (LastIp(hosts, mac).Some? ==> CurrentIps(r, mac) == {LastIp(hosts, mac).value})
      && (LastIp(hosts, mac).None? ==> CurrentIps(r, mac) == CurrentIps(t.deviceIps, mac))
    decreases |hosts|
  {
    if |hosts| > 0 {
      var init := hosts[..|hosts| - 1];
      var last := hosts[|hosts| - 1];
      ApplyHostsCurrentIp(t, init, scanId, now, mac);
      if HasMac(last) && last.mac != Some(mac) {
        CurrentIpsOfOtherMac(ApplyHosts(t, init, scanId, now).deviceIps, last, now, mac);
      }
    }
  }

  /** Skipped hosts change nothing: the loop over the whole batch leaves
      the same tables as the loop over the hosts that have a MAC. */
  lemma {:induction false} SkippedHostsChangeNothing(t: Tables, hosts: seq<HostRecord>, scanId: nat, now: Time)
    ensures ApplyHosts(t, hosts, scanId, now) == ApplyHosts(t, Observed(hosts), scanId, now)
    decreases |hosts|
  {
    if |hosts| > 0 {
      var init := hosts[..|hosts| - 1];
      var last := hosts[|hosts| - 1];
      SkippedHostsChangeNothing(t, init, scanId, now);
      var before := ApplyHosts(t, init, scanId, now);
      assert ApplyHosts(t, hosts, scanId, now) == HostStep(before, last, scanId, now);
      if HasMac(last) {
        var obs := Observed(init) + [last];
        assert Observed(hosts) == obs;
        assert obs[..|obs| - 1] == Observed(init);
        assert ApplyHosts(t, obs, scanId, now) == HostStep(ApplyHosts(t, Observed(init), scanId, now), last, scanId, now);
      } else {
        assert Observed(hosts) == Observed(init);
        assert HostStep(before, last, scanId, now) == before;
      }
    }
  }

  /** What a committed pass leaves in the tables: exactly one new run row,
      finished, with the pass's totals; one status row per processed host,
      appended after the old ones; and totals that count the hosts with a
      MAC and, of those, the ones that were up. */
  lemma PassResultTables(t: Tables, hosts: seq<HostRecord>, scanId: nat, now: Time)
    requires scanId !in t.scanRuns
    ensures var r := PassResult(t, hosts, scanId, now);
      && r.scanRuns == t.scanRuns[scanId := ScanRun(now, Some(now), |Observed(hosts)|, CountUp(Observed(hosts)), AutomatedScanNote)]
      && r.scanStatus == t.scanStatus + StatusRows(hosts, scanId)
      && |r.scanStatus| == |t.scanStatus| + |Observed(hosts)|
      && CountUp(Observed(hosts)) <= |Observed(hosts)|
  {
    var started := t.(scanRuns := StartRun(t.scanRuns, scanId, now));
    ApplyHostsAppendsStatus(started, hosts, scanId, now);
  }

  /** Where, if anywhere, the database raises during the pass. */
  datatype Fault =
    | NoFault
    | ConnectFails          // get_db_connection
    | RunStartFails         // insert_scan_run_start
    | HostFails(index: nat) // one of the three writes for hosts[index]
    | RunEndFails           // update_scan_run_end or commit

  /** Whether the fault is reached: a skipped host issues no statement. */
  predicate Fires(fault: Fault, hosts: seq<HostRecord>)
  {
    match fault
    case NoFault => false
    case HostFails(k) => k < |hosts| && HasMac(hosts[k])
    case _ => true
  }

  datatype PassOutcome = Committed(scanId: nat, totalHosts: nat, upHosts: nat) | RolledBack

  /** One more host of the batch: the processed hosts and the up count
      grow by that host exactly when it has a MAC. */
  lemma ObservedStep(hosts: seq<HostRecord>, i: nat)
    requires i < |hosts|
    ensures Observed(hosts[..i + 1]) == Observed(hosts[..i]) + (if HasMac(hosts[i]) then [hosts[i]] else [])
    ensures |Observed(hosts[..i + 1])| == |Observed(hosts[..i])| + (if HasMac(hosts[i]) then 1 else 0)
    ensures CountUp(Observed(hosts[..i + 1])) == CountUp(Observed(hosts[..i])) + (if HasMac(hosts[i]) then UpFlag(hosts[i].status) else 0)
  {
    assert hosts[..i + 1][..i] == hosts[..i];
    var obs := Observed(hosts[..i]);
    if HasMac(hosts[i]) {
      assert (obs + [hosts[i]])[..|obs|] == obs;
      assert CountUp(obs + [hosts[i]]) == CountUp(obs) + UpFlag(hosts[i].status);
    } else {
      assert Observed(hosts[..i + 1]) == obs;
    }
  }

  /** One more host of the batch is one more HostStep. */
  lemma ApplyHostsStep(t: Tables, hosts: seq<HostRecord>, i: nat, scanId: nat, now: Time)
    requires i < |hosts|
    ensures ApplyHosts(t, hosts[..i + 1], scanId, now) == HostStep(ApplyHosts(t, hosts[..i], scanId, now), hosts[i], scanId, now)
  {
    assert hosts[..i + 1][..i] == hosts[..i];
  }

  /** The three writes for one host that has a MAC. */
  method ProcessHost(db: Database, scanId: nat, host: HostRecord, now: Time)
    requires db.Valid() && HasMac(host)
    modifies db
    ensures db.Valid() && db.nextScanId == old(db.nextScanId)
    ensures db.State() == HostStep(old(db.State()), host, scanId, now)
  {
    db.UpsertDevice(host, now);
    db.UpsertDeviceIp(host, now);
    db.InsertDeviceScanStatus(scanId, host);
  }

  /** One pass through the body of the `for host in hosts` loop: a host
      without a MAC is skipped; otherwise it is counted and written, unless
      the database raises on its writes. */
  method VisitHost(db: Database, hosts: seq<HostRecord>, i: nat, scanId: nat, now: Time, fault: Fault,
                   totalHosts: nat, upHosts: nat, ghost start: Tables)
    returns (failed: bool, total': nat, up': nat)
    requires i < |hosts| && db.Valid()
    requires db.State() == ApplyHosts(start, hosts[..i], scanId, now)
    requires totalHosts == |Observed(hosts[..i])| && upHosts == CountUp(Observed(hosts[..i]))
    modifies db
    ensures db.Valid() && db.nextScanId == old(db.nextScanId)
    ensures failed <==> HasMac(hosts[i]) && fault == HostFails(i)
    ensures !failed ==>
      && db.State() == ApplyHosts(start, hosts[..i + 1], scanId, now)
      && total' == |Observed(hosts[..i + 1])| && up' == CountUp(Observed(hosts[..i + 1]))
  {
    var host := hosts[i];
    ObservedStep(hosts, i);
    ApplyHostsStep(start, hosts, i, scanId, now);
    total', up' := totalHosts, upHosts;
    if !HasMac(host) {
      return false, total', up';
    }
    if fault == HostFails(i) {
      return true, total', up';
    }
    total' := total' + 1;
    if host.status == Some("up") {
      up' := up' + 1;
    }
    ProcessHost(db, scanId, host, now);
    failed := false;
  }

  /** The `for host in hosts` loop of `main`: skip hosts without a MAC,
      count the others and write them. Stops with `failed` when the
      database raises on a host's writes. */
  method ReconcileHosts(db: Database, hosts: seq<HostRecord>, scanId: nat, now: Time, fault: Fault)
    returns (failed: bool, totalHosts: nat, upHosts: nat)
    requires db.Valid()
    modifies db
    ensures db.Valid() && db.nextScanId == old(db.nextScanId)
    ensures failed <==> fault.HostFails? && Fires(fault, hosts)
    ensures !failed ==>
      && db.State() == ApplyHosts(old(db.State()), hosts, scanId, now)
      && totalHosts == |Observed(hosts)| && upHosts == CountUp(Observed(hosts))
  {
    ghost var start := db.State();
    totalHosts, upHosts := 0, 0;
    var i := 0;
    while i < |hosts|
      invariant 0 <= i <= |hosts|
      invariant db.Valid() && db.nextScanId == old(db.nextScanId)
      invariant db.State() == ApplyHosts(start, hosts[..i], scanId, now)
      invariant totalHosts == |Observed(hosts[..i])| && upHosts == CountUp(Observed(hosts[..i]))
      invariant fault.HostFails? && fault.index < i ==> !HasMac(hosts[fault.index])
    {
      failed, totalHosts, upHosts := VisitHost(db, hosts, i, scanId, now, fault, totalHosts, upHosts, start);
      if failed {
        return;
      }
      i := i + 1;
    }
    assert hosts[..|hosts|] == hosts;
    failed := false;
  }

  /** The body of `main` from the connection on: either the whole pass is
      committed, or the transaction is rolled back and the tables are as
      they were. */
  method RunScanPass(db: Database, hosts: seq<HostRecord>, now: Time, fault: Fault) returns (outcome: PassOutcome)
    requires db.Valid()
    modifies db
    ensures db.Valid()
    ensures outcome.Committed? <==> !Fires(fault, hosts)
    ensures outcome.Committed? ==>
      && outcome == Committed(old(db.nextScanId), |Observed(hosts)|, CountUp(Observed(hosts)))
      && db.nextScanId == old(db.nextScanId) + 1
      && db.State() == PassResult(old(db.State()), hosts, outcome.scanId, now)
    ensures outcome.RolledBack? ==> db.State() == old(db.State()) && db.nextScanId >= old(db.nextScanId)
  {
    if fault == ConnectFails || fault == RunStartFails {
      return RolledBack;
    }
    var saved := db.State();
    var scanId := db.InsertScanRunStart(now);
    var failed, totalHosts, upHosts := ReconcileHosts(db, hosts, scanId, now, fault);
    if failed || fault == RunEndFails {
      db.Rollback(saved);
      return RolledBack;
    }
    db.UpdateScanRunEnd(scanId, totalHosts, upHosts, now);
    outcome := Committed(scanId, totalHosts, upHosts);
  }
}
