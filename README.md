# Home network scanner: scan parsing and device registry reconciliation

This project models the core of `linux/scanner.py`, a script that runs an
ARP host-discovery scan with nmap and records the result in four MySQL
tables. It models two parts of that script and proves properties of both.

- **Host-record extraction** (`parse_nmap_xml`). The model starts from the
  element tree that ElementTree builds from nmap's XML (`NmapXml.Element`).
  Each `host` element becomes one `HostRecord` with mac, ip, hostname,
  vendor and status. The address loop is a method with a loop
  (`ScanAddresses`). It is proved equal to a declarative rule: ip comes
  from the last ipv4 address, and mac and vendor both come from the last
  mac address.
- **Registry reconciliation** (the DB helpers and the host loop of `main`).
  `Registry.Database` is a class whose fields are the four tables:
  `scan_runs` plus the auto-increment counter, `devices`, `device_ips` and
  the append-only `device_scan_status`. Each helper is a method that
  changes only its own table. Its postcondition ties the new table to a
  pure function of the old one (`DeviceUpsert`, `DeviceIpUpsert`, ...),
  and those functions state the per-call promises. `Scanner.ReconcileHosts`
  is the per-host loop with its two counters. `Scanner.RunScanPass` wraps
  it in the transaction. It either commits the whole pass, giving `PassResult` of the old tables, or rolls back to the old
  tables. Which database statement, if any, raises is a `Fault`
  parameter. The lemmas about `ApplyHosts` (the host loop as a function)
  prove the pass-level properties:
  - counters grow by the number of observations;
  - known hostnames and vendors are never erased;
  - each MAC seen with an IP has exactly one current IP, the last one seen;
  - MACs that were not seen are untouched;
  - skipped hosts change nothing;
  - status rows are appended one per processed host.

The invariant `Registry.TablesValid` holds before and after every helper
and every pass:
- every run id is below the counter;
- `1 <= total_scans`, `last_status <= up_scans <= total_scans` and
  `last_status <= 1` for every device;
- at most one current IP row per MAC;
- `times_seen >= 1`.

Details of the code that the model keeps as written:
- `status` is `Option<string>`, not one of up/down/unknown. It is
  `'unknown'` only when there is no `status` element. A `status` element
  without a `state` attribute gives None (`status_el.get('state')`).
- The loop of `main` skips a host whose MAC is None *or* the empty
  string (`if not mac`). The helpers on their own test only `is None`, so
  `DeviceUpsert` with MAC `""` does insert a row.
- `update_scan_run_end` changes nothing when no row has the given id
  (`FinishRun`).

## Model

| member | source | states |
|---|---|---|
| NmapXml.Attr | linux/scanner.py:95-100 | `e.get(key)`: a value exactly when the attribute is present, and then the attribute's value; None otherwise |
| NmapXml.FindAll | linux/scanner.py:94 | `findall(tag)`: the result is no longer than the children and every element in it carries the tag |
| NmapXml.FindAllMembers | linux/scanner.py:86 | an element is in `findall(tag)` exactly when it is a child that carries the tag |
| NmapXml.FindAllConcat | linux/scanner.py:86 | `findall` keeps document order: over children `a + b` it gives the matches in `a` followed by the matches in `b` |
| NmapXml.FirstWithTag | linux/scanner.py:87 | `find(tag)` gives the index of a child with the tag and none before it has the tag; None exactly when no child has it |
| NmapXml.FirstNested | linux/scanner.py:102 | `find('hostnames/hostname')` gives the first `hostname` child of the first `hostnames` element that has one; None exactly when no `hostnames` element has such a child |
| NmapXml.LastOfAddrType | linux/scanner.py:94-100 | gives the index of an address with the given addrtype and no later address has that addrtype; None exactly when no address has it |
| NmapXml.HostRecordOf | linux/scanner.py:87-111 | the extraction rule for one host: status is `'unknown'` when no child is a `status` element, and otherwise the `state` of some `status` child; ip is the `addr` of some ipv4 `address` child; mac and vendor are the `addr` and `vendor` of one and the same mac `address` child; hostname is the `name` of a `hostname` under a `hostnames` child |
| NmapXml.ScanAddresses | linux/scanner.py:90-100 | the address loop leaves ip = `addr` of the last ipv4 address, and mac = `addr` and vendor = `vendor` of the same last mac address; each is None when there is no such address or attribute |
| NmapXml.ParseHost | linux/scanner.py:87-111 | the record equals `HostRecordOf(host)`: status is `'unknown'` without a `status` child and otherwise that child's `state` attribute; ip, mac and vendor as in ScanAddresses; hostname is the `name` of the first `hostnames/hostname`, or None |
| NmapXml.ParseNmapXml | linux/scanner.py:73-111 | exactly one record per `host` child of the root, in document order, record i being `HostRecordOf` of host element i |
| NmapXml.OtherAddrTypesIgnored | linux/scanner.py:95-100 | an address element whose addrtype is neither ipv4 nor mac, appended to a host, leaves its record unchanged |
| Registry.UpFlag | linux/scanner.py:162 | `is_up` is 0 or 1, and 1 exactly when the status is `'up'` |
| Registry.Coalesce | linux/scanner.py:173-174 | `COALESCE(new, old)`: a new non-NULL value wins, a NULL new value gives exactly the old value, so a known value is never replaced by NULL |
| Registry.StartRun | linux/scanner.py:123-127 | inserting a run adds exactly that id, with started_at = now, finished_at NULL, totals 0 and notes "automated scan"; other rows unchanged |
| Registry.FinishRun | linux/scanner.py:135-142 | the end update changes only the row with that id: it sets finished_at, total_hosts and up_hosts and keeps started_at and notes; no row matching means no change |
| Registry.DeviceUpsert | linux/scanner.py:153-190 | no-op for a None MAC; otherwise only that MAC's row changes. A new MAC gets first_seen = last_seen = now, total 1, up = last_status = is_up. An existing row keeps first_seen, gets last_seen = now, total + 1, up + is_up and last_status = is_up, and keeps the old hostname or vendor when the new one is None. Every row keeps its history, and well-formed counters stay well-formed |
| Registry.ClearCurrent | linux/scanner.py:209-211 | clearing the flags of one MAC leaves it no current IP, keeps every key, and changes only that MAC's rows, only in `is_current` |
| Registry.DeviceIpUpsert | linux/scanner.py:201-225 | no-op when the MAC or IP is None. Otherwise the (mac, ip) row exists, is current and is the MAC's only current row. Its last_seen is now, its first_seen is kept (now if new), and times_seen is old + 1 (1 if new). The MAC's other rows only lose their flag, other MACs' rows are untouched, and at most one current row per MAC is preserved |
| Registry.StatusInsert | linux/scanner.py:232-245 | no row for a None MAC; otherwise exactly one row (is_up, mac, scan_id) appended |
| Registry.Database.InsertScanRunStart | linux/scanner.py:120-130 | the returned id is the counter's value and was not in use; the counter advances; scan_runs becomes StartRun of the old table; nothing else changes |
| Registry.Database.UpdateScanRunEnd | linux/scanner.py:133-145 | scan_runs becomes FinishRun of the old table; nothing else changes |
| Registry.Database.UpsertDevice | linux/scanner.py:148-191 | devices becomes DeviceUpsert of the old table; nothing else changes; the invariant is kept |
| Registry.Database.UpsertDeviceIp | linux/scanner.py:194-225 | device_ips becomes DeviceIpUpsert of the old table, computed in two steps (clear the flags, then insert or merge); nothing else changes; the invariant is kept |
| Registry.Database.InsertDeviceScanStatus | linux/scanner.py:228-245 | device_scan_status becomes StatusInsert of the old log; nothing else changes |
| Registry.Database.Rollback | linux/scanner.py:295-303 | the four tables return to the saved state, and the invariant holds in it |
| Scanner.HasMac | linux/scanner.py:275-276 | a host is processed exactly when its MAC is neither None nor the empty string (`if not mac`); its partner is ObservedMembers |
| Scanner.Observed | linux/scanner.py:274-281 | the hosts the loop processes: every one has a non-empty MAC, and there are no more of them than hosts |
| Scanner.ObservedConcat | linux/scanner.py:274-281 | the loop keeps the batch's order and multiplicity: over `a + b` it processes the hosts of `a` it keeps, then those of `b` |
| Scanner.ObservedMembers | linux/scanner.py:274-281 | a host is processed exactly when it is in the batch and has a non-empty MAC |
| Scanner.CountUp | linux/scanner.py:283-285 | up_hosts never exceeds the number of hosts counted |
| Scanner.UpOccurrences | linux/scanner.py:284-287 | a MAC's up observations never exceed its observations |
| Scanner.StatusRows | linux/scanner.py:289 | one status row per processed host, in order; row i has processed host i's MAC and up flag and this run's id |
| Scanner.HostStep | linux/scanner.py:275-289 | one iteration: a skipped host changes nothing; a processed one leaves its MAC with a device row and one more status row; scan_runs is untouched |
| Scanner.ApplyHosts | linux/scanner.py:274-289 | the loop over a whole batch leaves scan_runs exactly as it was |
| Scanner.PassResult | linux/scanner.py:269-292 | a committed pass from valid tables, with the new run id as the next id, leaves valid tables for the following id |
| Scanner.ProcessHost | linux/scanner.py:287-289 | the three writes for one host with a MAC take the tables to one HostStep of the loop; the id counter is unchanged and the invariant is kept |
| Scanner.VisitHost | linux/scanner.py:275-289 | one pass through the loop body: it fails exactly when the host has a non-empty MAC and the fault is on it. Otherwise the tables and both counters move from the prefix of the batch before the host to the prefix that includes it; the id counter is unchanged and the invariant is kept |
| Scanner.ReconcileHosts | linux/scanner.py:271-290 | the host loop fails exactly when the fault is on a host it does not skip. Otherwise the tables become ApplyHosts of the tables before the loop, total_hosts counts the hosts with a non-empty MAC, and up_hosts counts those of them whose status is `'up'` |
| Scanner.RunScanPass | linux/scanner.py:264-303 | commits exactly when no fault is reached (a skipped host issues no statement). On commit: the id is the counter's value, the totals are the number of hosts with a non-empty MAC and the number of those that are up, and the tables are PassResult of the old tables. On rollback: the tables are exactly the old tables. The invariant holds either way |
| Scanner.ApplyHostsKeepsInvariant | linux/scanner.py:274-289 | over a whole batch, well-formed device counters stay well-formed and no MAC gets a second current IP |
| Scanner.ApplyHostsAppendsStatus | linux/scanner.py:289 | the host loop only appends to device_scan_status, and it appends exactly StatusRows |
| Scanner.ApplyHostsCounters | linux/scanner.py:287 | after the loop a MAC has a device row exactly when it had one or was processed. total_scans grows by the number of processed hosts with that MAC, and up_scans by the number of those that were up |
| Scanner.ApplyHostsKeepsHistory | linux/scanner.py:171-177 | over a whole batch a device keeps first_seen, its counters do not decrease, and a known hostname or vendor stays known |
| Scanner.ApplyHostsUntouched | linux/scanner.py:287-289 | a MAC that no processed host carries keeps its device row and all its device_ips rows exactly |
| Scanner.CurrentIpsOfOtherMac | linux/scanner.py:209-211 | the IP upsert for one MAC leaves every other MAC's set of current IPs unchanged |
| Scanner.ApplyHostsCurrentIp | linux/scanner.py:208-225 | after the loop a MAC seen with an IP has exactly one current IP, the last one it was seen with; a MAC not seen with an IP keeps its current IPs |
| Scanner.SkippedHostsChangeNothing | linux/scanner.py:276-281 | the loop over the batch leaves the same tables as the loop over only the hosts with a MAC |
| Scanner.PassResultTables | linux/scanner.py:269-291 | a committed pass adds exactly one run row, finished, with totals equal to the number of processed hosts and of up ones (up ≤ total). device_scan_status grows by exactly that many rows, all with this run's id |

## Left out

- Environment and `.env` configuration, `DB_PORT` parsing, `SUBNET` and `NMAP_PATH` (linux/scanner.py:12-39): process setup.
- `get_db_connection`, the cursor and closing the connection (linux/scanner.py:42-49, 304-307): these are foreign I/O. The tables are in-memory maps, and a failed connection is the `ConnectFails` fault.
- `run_nmap_scan` and the early returns of `main` when the scan or the parse fails (linux/scanner.py:54-70, 252-262): these are a subprocess call and error paths that return before any table is touched.
- `ET.fromstring` (linux/scanner.py:84): XML text to tree is a library call. The model starts from the tree.
- `utc_now` (linux/scanner.py:115-117): it reads the clock. One `now` parameter is used for the whole pass, so the model does not tell apart the separate clock readings the source takes for the run start, each helper and the run end.
- Logging throughout: it has no effect on the tables.
- Concurrent passes: the source runs one sequential pass, and isolation between passes is left to the database.
- The table schema: it is not in the source. The model assumes the unique keys that the `ON DUPLICATE KEY UPDATE` statements rely on (MAC for `devices`, MAC and IP for `device_ips`). Columns are unbounded integers, so SQL integer widths are not modelled.
- Key comparison: `devices` and `device_ips` are keyed by the exact MAC and IP strings. The `ON DUPLICATE KEY` matches and `WHERE mac_address = %s` (linux/scanner.py:171, 210, 219) compare under the column's collation, which is often case-insensitive in MySQL. Collations are not modelled, so MACs that differ only in case are two devices here. nmap prints MACs in one case, so this does not arise from its output.
- Scanner.RunScanPass: on rollback it promises only that the auto-increment counter has not gone back. Whether a rolled-back insert uses up an id depends on the storage engine. The four tables are promised to be restored exactly.
- Scanner.RunScanPass: a `HostFails` fault raises before that host's first write. In the source the error may come after one or two of the three writes, but the rollback discards those writes, so the end state is the same.
