/** The four tables the scanner writes (scan_runs, devices, device_ips and
    device_scan_status) and the helpers that write them, one statement
    each, inside the pass's transaction. */
module Registry {
  import opened Wrappers
  import opened NmapXml

  type Mac = string
  type Ip = string
  /** A timestamp; the model takes it as a parameter instead of reading the clock. */
  type Time = int

  /** The `notes` value every run row is inserted with. */
  const AutomatedScanNote: string := "automated scan"

  datatype ScanRun = ScanRun(startedAt: Time, finishedAt: Option<Time>, totalHosts: int, upHosts: int, notes: string)

  datatype Device = Device(
    firstSeen: Time,
    lastSeen: Time,
    hostname: Option<string>,
    vendor: Option<string>,
    totalScans: nat,
    upScans: nat,
    lastStatus: nat)

  datatype DeviceIp = DeviceIp(firstSeen: Time, lastSeen: Time, isCurrent: bool, timesSeen: nat)

  datatype ScanStatus = ScanStatus(status: nat, mac: Mac, scanId: nat)

  /** The contents of the four tables at one moment. */
  datatype Tables = Tables(
    scanRuns: map<nat, ScanRun>,
    devices: map<Mac, Device>,
    deviceIps: map<(Mac, Ip), DeviceIp>,
    scanStatus: seq<ScanStatus>)

  /** `1 if status == 'up' else 0`. */
  function UpFlag(status: Option<string>): (flag: nat)
    ensures flag <= 1
    ensures flag == 1 <==> status == Some("up")
  {
    if status == Some("up") then 1 else 0
  }

  /** SQL `COALESCE(new, old)`: the new value unless it is NULL. */
  function Coalesce(incoming: Option<string>, known: Option<string>): (r: Option<string>)
    ensures known.Some? ==> r.Some?
    ensures incoming.Some? ==> r == incoming
    ensures incoming.None? ==> r == known
  {
    if incoming.Some? then incoming else known
  }

  // ---------------------------------------------------------------------
  // Invariants of the tables

  ghost predicate DeviceWellFormed(d: Device)
  {
    1 <= d.totalScans && d.lastStatus <= 1 && d.lastStatus <= d.upScans <= d.totalScans
  }

  ghost predicate DevicesWellFormed(devices: map<Mac, Device>)
  {
    forall m | m in devices :: DeviceWellFormed(devices[m])
  }

  /** The IPs whose row for `mac` has `is_current = 1`. */
  function CurrentIps(ips: map<(Mac, Ip), DeviceIp>, mac: Mac): set<Ip>
  {
    set k | k in ips && k.0 == mac && ips[k].isCurrent :: k.1
  }

  /** No MAC has two current IP rows. */
  ghost predicate AtMostOneCurrent(ips: map<(Mac, Ip), DeviceIp>)
  {
    forall k1, k2 | k1 in ips && k2 in ips && k1.0 == k2.0 && ips[k1].isCurrent && ips[k2].isCurrent :: k1 == k2
  }

  ghost predicate IpsWellFormed(ips: map<(Mac, Ip), DeviceIp>)
  {
    AtMostOneCurrent(ips) && forall k | k in ips :: 1 <= ips[k].timesSeen
  }

  /** What every committed state satisfies: run ids below the next id the
      counter hands out, device counters consistent, and at most one
      current IP per MAC. */
  ghost predicate TablesValid(t: Tables, nextScanId: nat)
  {
    && (forall id | id in t.scanRuns :: id < nextScanId)
    && DevicesWellFormed(t.devices)
    && IpsWellFormed(t.deviceIps)
  }

  /** A device row's history is kept when first_seen is unchanged, the
      counters have not decreased and a known hostname or vendor is still
      known. */
  ghost predicate KeepsHistory(before: Device, after: Device)
  {
    && after.firstSeen == before.firstSeen
    && after.totalScans >= before.totalScans
    && after.upScans >= before.upScans
    && (before.hostname.Some? ==> after.hostname.Some?)
    && (before.vendor.Some? ==> after.vendor.Some?)
  }

  // ---------------------------------------------------------------------
  // What each statement does to its table

  /** insert_scan_run_start: a fresh row with no finish time and zero counts. */
  function StartRun(runs: map<nat, ScanRun>, scanId: nat, now: Time): (r: map<nat, ScanRun>)
    ensures r.Keys == runs.Keys + {scanId}
    ensures r[scanId].finishedAt.None? && r[scanId].totalHosts == 0 && r[scanId].upHosts == 0
    ensures r[scanId].startedAt == now && r[scanId].notes == AutomatedScanNote
    ensures forall id | id in runs && id != scanId :: r[id] == runs[id]
  {
    runs[scanId := ScanRun(now, None, 0, 0, AutomatedScanNote)]
  }

  /** update_scan_run_end: `UPDATE ... WHERE scan_id = %s` changes that row
      only, and nothing when no row has that id. */
  function FinishRun(runs: map<nat, ScanRun>, scanId: nat, total: int, up: int, now: Time): (r: map<nat, ScanRun>)
    ensures r.Keys == runs.Keys
    ensures forall id | id in runs && id != scanId :: r[id] == runs[id]
    ensures scanId in runs ==> r[scanId] == ScanRun(runs[scanId].startedAt, Some(now), total, up, runs[scanId].notes)
  {
    if scanId in runs then runs[scanId := runs[scanId].(finishedAt := Some(now), totalHosts := total, upHosts := up)]
    else runs
  }

  /** upsert_device: `INSERT ... ON DUPLICATE KEY UPDATE` keyed by the MAC. */
  function DeviceUpsert(devices: map<Mac, Device>, host: HostRecord, now: Time): (r: map<Mac, Device>)
    ensures host.mac.None? ==> r == devices
    ensures host.mac.Some? ==> r.Keys == devices.Keys + {host.mac.value}
    ensures forall m | m in devices && host.mac != Some(m) :: r[m] == devices[m]
    // a new MAC gets a fresh row
    ensures host.mac.Some? && host.mac.value !in devices ==>
      r[host.mac.value] == Device(now, now, host.hostname, host.vendor, 1, UpFlag(host.status), UpFlag(host.status))
    // an existing row is merged
    ensures host.mac.Some? && host.mac.value in devices ==>
      var old_ := devices[host.mac.value];
      var new_ := r[host.mac.value];
      && new_.firstSeen == old_.firstSeen && new_.lastSeen == now
      && new_.totalScans == old_.totalScans + 1
      && new_.upScans == old_.upScans + UpFlag(host.status)
      && new_.lastStatus == UpFlag(host.status)
      && new_.hostname == (if host.hostname.Some? then host.hostname else old_.hostname)
      && new_.vendor == (if host.vendor.Some? then host.vendor else old_.vendor)
    ensures forall m | m in devices :: m in r && KeepsHistory(devices[m], r[m])
    ensures DevicesWellFormed(devices) ==> DevicesWellFormed(r)
  {
    match host.mac
    case None => devices
    case Some(mac) =>
      var isUp := UpFlag(host.status);
      if mac in devices then
        var d := devices[mac];
        devices[mac := Device(d.firstSeen, now, Coalesce(host.hostname, d.hostname), Coalesce(host.vendor, d.vendor),
                              d.totalScans + 1, d.upScans + isUp, isUp)]
      else
        devices[mac := Device(now, now, host.hostname, host.vendor, 1, isUp, isUp)]
  }

  /** `UPDATE device_ips SET is_current = 0 WHERE mac_address = %s`. */
  function ClearCurrent(ips: map<(Mac, Ip), DeviceIp>, mac: Mac): (r: map<(Mac, Ip), DeviceIp>)
    ensures r.Keys == ips.Keys
    ensures CurrentIps(r, mac) == {}
    ensures forall k | k in ips && k.0 != mac :: r[k] == ips[k]
    ensures forall k | k in ips && k.0 == mac :: r[k] == ips[k].(isCurrent := false)
  {
    map k | k in ips :: if k.0 == mac then ips[k].(isCurrent := false) else ips[k]
  }

  /** upsert_device_ip: clear the MAC's current flags, then insert or merge
      the (mac, ip) row as the current one. */
  function DeviceIpUpsert(ips: map<(Mac, Ip), DeviceIp>, host: HostRecord, now: Time): (r: map<(Mac, Ip), DeviceIp>)
    ensures host.mac.None? || host.ip.None? ==> r == ips
    ensures host.mac.Some? && host.ip.Some? ==>
      var key := (host.mac.value, host.ip.value);
      && r.Keys == ips.Keys + {key}
      && r[key].isCurrent && r[key].lastSeen == now
      && r[key].firstSeen == (if key in ips then ips[key].firstSeen else now)
      && r[key].timesSeen == (if key in ips then ips[key].timesSeen + 1 else 1)
      && CurrentIps(r, host.mac.value) == {host.ip.value}
      && (forall k | k in ips && k.0 == host.mac.value && k != key :: r[k] == ips[k].(isCurrent := false))
    ensures forall k | k in ips && Some(k.0) != host.mac :: r[k] == ips[k]
    ensures IpsWellFormed(ips) ==> IpsWellFormed(r)
  {
    if host.mac.None? || host.ip.None? then ips
    else
      var mac, ip := host.mac.value, host.ip.value;
      var cleared := ClearCurrent(ips, mac);
      var key := (mac, ip);
      var r := if key in cleared then cleared[key := cleared[key].(lastSeen := now, timesSeen := cleared[key].timesSeen + 1, isCurrent := true)]
               else cleared[key := DeviceIp(now, now, true, 1)];
      assert key in r && r[key].isCurrent;
      r
  }

  /** insert_device_scan_status: one appended row unless the MAC is None. */
  function StatusInsert(log: seq<ScanStatus>, scanId: nat, host: HostRecord): (r: seq<ScanStatus>)
    ensures host.mac.None? ==> r == log
    ensures host.mac.Some? ==> r == log + [ScanStatus(UpFlag(host.status), host.mac.value, scanId)]
  {
    match host.mac
    case None => log
    case Some(mac) => log + [ScanStatus(UpFlag(host.status), mac, scanId)]
  }

  /** The database: the four tables plus the auto-increment counter behind
      `cursor.lastrowid`. */
  class Database {
    var scanRuns: map<nat, ScanRun>
    var nextScanId: nat
    var devices: map<Mac, Device>
    var deviceIps: map<(Mac, Ip), DeviceIp>
    var scanStatus: seq<ScanStatus>

    function State(): Tables
      reads this
    {
      Tables(scanRuns, devices, deviceIps, scanStatus)
    }

    ghost predicate Valid()
      reads this
    {
      TablesValid(State(), nextScanId)
    }

    /** Empty tables; MySQL's AUTO_INCREMENT starts at 1. */
    constructor Empty()
      ensures Valid()
      ensures State() == Tables(map[], map[], map[], []) && nextScanId == 1
    {
      scanRuns, nextScanId := map[], 1;
      devices, deviceIps, scanStatus := map[], map[], [];
    }

    /** insert_scan_run_start: inserts the run row and returns its fresh id. */
    method InsertScanRunStart(now: Time) returns (scanId: nat)
      requires Valid()
      modifies this`scanRuns, this`nextScanId
      ensures Valid()
      ensures scanId == old(nextScanId) && nextScanId == scanId + 1
      ensures scanId !in old(scanRuns)
      ensures scanRuns == StartRun(old(scanRuns), scanId, now)
    {
      scanId := nextScanId;
      nextScanId := nextScanId + 1;
      scanRuns := scanRuns[scanId := ScanRun(now, None, 0, 0, AutomatedScanNote)];
    }

    /** update_scan_run_end: records the finish time and the final counts. */
    method UpdateScanRunEnd(scanId: nat, total: int, up: int, now: Time)
      requires Valid()
      modifies this`scanRuns
      ensures Valid()
      ensures scanRuns == FinishRun(old(scanRuns), scanId, total, up, now)
    {
      if scanId in scanRuns {
        var run := scanRuns[scanId];
        scanRuns := scanRuns[scanId := ScanRun(run.startedAt, Some(now), total, up, run.notes)];
      }
    }

    /** upsert_device. */
    method UpsertDevice(host: HostRecord, now: Time)
      requires Valid()
      modifies this`devices
      ensures Valid()
      ensures devices == DeviceUpsert(old(devices), host, now)
    {
      if host.mac.None? {
        return;
      }
      var mac := host.mac.value;
      var isUp := UpFlag(host.status);
      if mac in devices {
        var d := devices[mac];
        devices := devices[mac := Device(d.firstSeen, now, Coalesce(host.hostname, d.hostname),
                                         Coalesce(host.vendor, d.vendor),
                                         d.totalScans + 1, d.upScans + isUp, isUp)];
      } else {
        devices := devices[mac := Device(now, now, host.hostname, host.vendor, 1, isUp, isUp)];
      }
    }

    /** upsert_device_ip: two statements, the flag reset and the upsert. */
    method UpsertDeviceIp(host: HostRecord, now: Time)
      requires Valid()
      modifies this`deviceIps
      ensures Valid()
      ensures deviceIps == DeviceIpUpsert(old(deviceIps), host, now)
    {
      if host.mac.None? || host.ip.None? {
        return;
      }
      var mac, ip := host.mac.value, host.ip.value;
      deviceIps := map k | k in deviceIps :: if k.0 == mac then deviceIps[k].(isCurrent := false) else deviceIps[k];
      var key := (mac, ip);
      if key in deviceIps {
        var row := deviceIps[key];
        deviceIps := deviceIps[key := DeviceIp(row.firstSeen, now, true, row.timesSeen + 1)];
      } else {
        deviceIps := deviceIps[key := DeviceIp(now, now, true, 1)];
      }
    }

    /** insert_device_scan_status. */
    method InsertDeviceScanStatus(scanId: nat, host: HostRecord)
      requires Valid()
      modifies this`scanStatus
      ensures Valid()
      ensures scanStatus == StatusInsert(old(scanStatus), scanId, host)
    {
      if host.mac.None? {
        return;
      }
      scanStatus := scanStatus + [ScanStatus(UpFlag(host.status), host.mac.value, scanId)];
    }

    /** `conn.rollback()`: the tables return to the state the transaction
        started from; the id counter is not part of the tables. */
    method Rollback(saved: Tables)
      requires TablesValid(saved, nextScanId)
      modifies this`scanRuns, this`devices, this`deviceIps, this`scanStatus
      ensures Valid()
      ensures State() == saved
    {
      scanRuns, devices, deviceIps, scanStatus := saved.scanRuns, saved.devices, saved.deviceIps, saved.scanStatus;
    }
  }
}
