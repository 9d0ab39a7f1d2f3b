/**
 The host-metrics service as the widgets see it: one typed answer, a value
 or an error message, for each question they may ask. How the service
 obtains its figures (a local or remote shell) is not part of this model.
 */
module Service {
  import opened Wrappers

  /** Rows of a table, each a sequence of cells. */
  type Rows = seq<seq<string>>

  /** A question put to the service, recorded in the order it is asked. */
  datatype Call =
    | Load
    | Processes
    | Uptime
    | CpuRate
    | MemoryRate
    | SwapRate
    | NetIo(unit: string)
    | DiskIo(unit: string)
    | Memory(metrics: seq<string>, unit: string)
    | Disk(headers: seq<string>, unit: string)
    | Table(command: string, headers: seq<string>)

  /**
   The service's answers. Uptime is a non-negative duration in nanoseconds;
   rates are percentages; memory values are aligned with the metrics asked for.
   */
  datatype Host = Host(
    load: Result<string, string>,
    processes: Result<string, string>,
    uptime: Result<nat, string>,
    cpuRate: Result<real, string>,
    memoryRate: Result<real, string>,
    swapRate: Result<real, string>,
    netIo: string -> Result<string, string>,
    diskIo: string -> Result<string, string>,
    memory: (seq<string>, string) -> Result<seq<int>, string>,
    disk: (seq<string>, string) -> Result<Rows, string>,
    table: (string, seq<string>) -> Result<Rows, string>)

  /** The service answers `call` with an error. */
  predicate Failed(host: Host, call: Call) {
    match call
    case Load => host.load.Failure?
    case Processes => host.processes.Failure?
    case Uptime => host.uptime.Failure?
    case CpuRate => host.cpuRate.Failure?
    case MemoryRate => host.memoryRate.Failure?
    case SwapRate => host.swapRate.Failure?
    case NetIo(u) => host.netIo(u).Failure?
    case DiskIo(u) => host.diskIo(u).Failure?
    case Memory(m, u) => host.memory(m, u).Failure?
    case Disk(h, u) => host.disk(h, u).Failure?
    case Table(c, h) => host.table(c, h).Failure?
  }

  /** The error the service answers `call` with. */
  function ErrorOf(host: Host, call: Call): string
    requires Failed(host, call)
  {
    match call
    case Load => host.load.error
    case Processes => host.processes.error
    case Uptime => host.uptime.error
    case CpuRate => host.cpuRate.error
    case MemoryRate => host.memoryRate.error
    case SwapRate => host.swapRate.error
    case NetIo(u) => host.netIo(u).error
    case DiskIo(u) => host.diskIo(u).error
    case Memory(m, u) => host.memory(m, u).error
    case Disk(h, u) => host.disk(h, u).error
    case Table(c, h) => host.table(c, h).error
  }
}
