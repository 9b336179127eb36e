/**
 * What the operating system supplies to the monitor. Each value here is the
 * result of a metrics-provider call (psutil, platform, the clock); the model
 * takes them as inputs. Byte counts are carried as the provider's numbers:
 * the conversion to rounded GB/MB figures is not part of this model.
 */
module Provider {
  import opened Wrappers

  /** The exceptions a provider call can raise: a process that vanished, a
      permission refusal, and any other failure. */
  datatype ProviderError = NoSuchProcess | AccessDenied | OtherError

  /** One process entry as the process listing reports it; any attribute but
      the pid may be missing. */
  datatype ProcessInfo = ProcessInfo(
    pid: int,
    name: Option<string>,
    cpuPercent: Option<real>,
    memoryPercent: Option<real>,
    status: Option<string>)

  /** The CPU block: overall and per-core utilisation, core counts, load averages. */
  datatype CpuInfo = CpuInfo(
    percentOverall: real,
    percentPerCore: seq<real>,
    coreCountLogical: Option<nat>,
    coreCountPhysical: Option<nat>,
    loadAvg: (real, real, real))

  datatype RamInfo = RamInfo(totalGb: real, usedGb: real, availableGb: real, percent: real)

  datatype SwapInfo = SwapInfo(totalGb: real, usedGb: real, percent: real)

  /** The memory block: RAM and swap. */
  datatype MemoryInfo = MemoryInfo(ram: RamInfo, swap: SwapInfo)

  /** The usage figures of one mount point. */
  datatype DiskUsage = DiskUsage(totalGb: real, usedGb: real, freeGb: real, percent: real)

  /** The cumulative disk I/O counters. */
  datatype DiskIoCounters = DiskIoCounters(readMb: real, writeMb: real)

  /** The network block. */
  datatype NetworkInfo = NetworkInfo(
    bytesSentMb: real,
    bytesRecvMb: real,
    packetsSent: nat,
    packetsRecv: nat,
    errorsIn: nat,
    errorsOut: nat)

  /** The host identity readings and the uptime in whole seconds. */
  datatype SystemReading = SystemReading(
    hostname: string,
    os: string,
    osRelease: string,
    arch: string,
    python: string,
    bootTime: string,
    uptimeSeconds: int)

  /** Everything one sampling cycle asks of the provider. Each call either
      answers or raises; `diskUsage` answers for the mount path it is given;
      `diskIo` may answer that there are no I/O counters; the process
      listing yields one fallible read per process. */
  datatype Readings = Readings(
    system: Result<SystemReading, ProviderError>,
    cpu: Result<CpuInfo, ProviderError>,
    memory: Result<MemoryInfo, ProviderError>,
    diskUsage: string -> Result<DiskUsage, ProviderError>,
    diskIo: Result<Option<DiskIoCounters>, ProviderError>,
    network: Result<NetworkInfo, ProviderError>,
    processes: seq<Result<ProcessInfo, ProviderError>>)
}
