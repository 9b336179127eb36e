/**
 * The snapshot builder (take_snapshot): one call per metric family, in a
 * fixed order, composed into a single record together with the alerts and
 * the status derived from it. The first provider call that raises aborts
 * the whole snapshot; only the process scan skips individual failures.
 */
module Snapshot {
  import opened Wrappers
  import opened Provider
  import opened Alerts
  import opened Uptime
  import opened Processes

  /** The disk block: the mount path asked for, its usage, and the I/O
      counters when the provider has them. */
  datatype DiskInfo = DiskInfo(
    path: string,
    totalGb: real,
    usedGb: real,
    freeGb: real,
    percent: real,
    io: Option<DiskIoCounters>)

  /** The host identity block with the uptime in seconds and in human form. */
  datatype SystemInfo = SystemInfo(
    hostname: string,
    os: string,
    osRelease: string,
    arch: string,
    python: string,
    bootTime: string,
    uptimeSeconds: int,
    uptimeHuman: string)

  datatype Snapshot = Snapshot(
    timestamp: string,
    system: SystemInfo,
    cpu: CpuInfo,
    memory: MemoryInfo,
    disk: DiskInfo,
    network: NetworkInfo,
    topProcesses: seq<ProcessInfo>,
    alerts: seq<Alert>,
    status: string)

  /** The number of processes take_snapshot asks for. */
  const DefaultTopN: int := 5

  /** collect_disk: the usage of `path`, then the I/O counters; either call may raise. */
  function CollectDisk(path: string,
                       usage: string -> Result<DiskUsage, ProviderError>,
                       io: Result<Option<DiskIoCounters>, ProviderError>): (r: Result<DiskInfo, ProviderError>)
    ensures r.Success? <==> usage(path).Success? && io.Success?
    ensures usage(path).Failure? ==> r == Failure(usage(path).error)
    ensures usage(path).Success? && io.Failure? ==> r == Failure(io.error)
    ensures r.Success? ==>
              var d, u := r.value, usage(path).value;
              d.path == path
              && d.totalGb == u.totalGb && d.usedGb == u.usedGb && d.freeGb == u.freeGb && d.percent == u.percent
              && (d.io.Some? <==> io.value.Some?) && d.io == io.value
  {
    match usage(path)
    case Failure(e) => Failure(e)
    case Success(u) =>
      match io
      case Failure(e) => Failure(e)
      case Success(counters) =>
        var d := DiskInfo(path, u.totalGb, u.usedGb, u.freeGb, u.percent, None);
        Success(if counters.Some? then d.(io := counters) else d)
  }

  /** collect_system_info: the host readings with the uptime also in human form. */
  function CollectSystemInfo(s: SystemReading): SystemInfo
  {
    SystemInfo(s.hostname, s.os, s.osRelease, s.arch, s.python, s.bootTime, s.uptimeSeconds, FmtUptime(s.uptimeSeconds))
  }

  function ErrorOf<T>(call: Result<T, ProviderError>): Option<ProviderError>
  {
    if call.Failure? then Some(call.error) else None
  }

  /** The error, if any, of each provider step of one snapshot, in the order
      take_snapshot performs them: system, CPU, memory, disk usage, disk I/O,
      network, process scan. */
  function Outcomes(diskPath: string, rd: Readings): seq<Option<ProviderError>>
  {
    [ErrorOf(rd.system), ErrorOf(rd.cpu), ErrorOf(rd.memory), ErrorOf(rd.diskUsage(diskPath)),
     ErrorOf(rd.diskIo), ErrorOf(rd.network), FirstEscape(rd.processes)]
  }

  /** Every step succeeds exactly when every top-level call answers, whatever
      its error would be, and no process read fails with an uncaught error. */
  lemma OutcomesClean(diskPath: string, rd: Readings)
    ensures (forall i :: 0 <= i < |Outcomes(diskPath, rd)| ==> Outcomes(diskPath, rd)[i].None?)
        <==> rd.system.Success? && rd.cpu.Success? && rd.memory.Success? && rd.diskUsage(diskPath).Success?
             && rd.diskIo.Success? && rd.network.Success?
             && forall i :: 0 <= i < |rd.processes| ==> !Escapes(rd.processes[i])
  {
    FirstEscapeFacts(rd.processes);
    var o := Outcomes(diskPath, rd);
    assert o[0] == ErrorOf(rd.system) && o[1] == ErrorOf(rd.cpu) && o[2] == ErrorOf(rd.memory);
    assert o[3] == ErrorOf(rd.diskUsage(diskPath)) && o[4] == ErrorOf(rd.diskIo) && o[5] == ErrorOf(rd.network);
    assert o[6] == FirstEscape(rd.processes);
  }

  /** The invariants of every snapshot: the status reflects the alerts, the
      alerts are those of the three readings, the process block is short and sorted. */
  predicate Consistent(s: Snapshot, t: Thresholds)
  {
    s.alerts == Evaluate(s.cpu.percentOverall, s.memory.ram.percent, s.disk.percent, t)
    && (s.status == "ALERT" <==> s.alerts != [])
    && (s.status == "OK" <==> s.alerts == [])
    && |s.topProcesses| <= DefaultTopN
    && SortedDesc(s.topProcesses)
  }

  /** take_snapshot: calls each collector once, in order, and stops at the first
      one that raises; then evaluates the alerts and derives the status. */
  method TakeSnapshot(timestamp: string, diskPath: string, rd: Readings, t: Thresholds)
    returns (r: Result<Snapshot, ProviderError>)
    ensures var o := Outcomes(diskPath, rd);
            r.Success? <==> forall i :: 0 <= i < |o| ==> o[i].None?
    ensures var o := Outcomes(diskPath, rd);
            r.Failure? ==> exists i :: 0 <= i < |o| && o[i] == Some(r.error) && forall j :: 0 <= j < i ==> o[j].None?
    ensures r.Success? ==>
              var s := r.value;
              rd.system.Success? && rd.cpu.Success? && rd.memory.Success? && rd.network.Success?
              && s.timestamp == timestamp
              && s.system == CollectSystemInfo(rd.system.value)
              && s.system.uptimeHuman == FmtUptime(rd.system.value.uptimeSeconds)
              && s.cpu == rd.cpu.value && s.memory == rd.memory.value && s.network == rd.network.value
              && CollectDisk(diskPath, rd.diskUsage, rd.diskIo) == Success(s.disk)
              && s.disk.path == diskPath
              && s.topProcesses == TopN(Readable(rd.processes), DefaultTopN)
              && Consistent(s, t)
  {
    var o := Outcomes(diskPath, rd);
    if rd.system.Failure? {
      assert o[0] == Some(rd.system.error);
      return Failure(rd.system.error);
    }
    var system := CollectSystemInfo(rd.system.value);
    if rd.cpu.Failure? {
      assert o[1] == Some(rd.cpu.error);
      return Failure(rd.cpu.error);
    }
    var cpu := rd.cpu.value;
    if rd.memory.Failure? {
      assert o[2] == Some(rd.memory.error);
      return Failure(rd.memory.error);
    }
    var memory := rd.memory.value;
    var disk := CollectDisk(diskPath, rd.diskUsage, rd.diskIo);
    if disk.Failure? {
      if rd.diskUsage(diskPath).Failure? {
        assert o[3] == Some(disk.error);
      } else {
        assert o[4] == Some(disk.error);
      }
      return Failure(disk.error);
    }
    if rd.network.Failure? {
      assert o[5] == Some(rd.network.error);
      return Failure(rd.network.error);
    }
    var network := rd.network.value;
    var top := CollectTopProcesses(rd.processes, DefaultTopN);
    if top.Failure? {
      var k :| 0 <= k < |rd.processes| && Escapes(rd.processes[k]) && rd.processes[k].error == top.error
               && forall j :: 0 <= j < k ==> !Escapes(rd.processes[j]);
      FirstEscapeAt(rd.processes, k);
      assert o[0].None? && o[1].None? && o[2].None? && o[3].None? && o[4].None? && o[5].None?;
      assert o[6] == Some(top.error);
      return Failure(top.error);
    }
    var alerts := CheckAlerts(cpu.percentOverall, memory.ram.percent, disk.value.percent, t);
    var status := Status(alerts);
    TopNShape(Readable(rd.processes), DefaultTopN);
    r := Success(Snapshot(timestamp, system, cpu, memory, disk.value, network, top.value, alerts, status));
    OutcomesClean(diskPath, rd);
  }
}
