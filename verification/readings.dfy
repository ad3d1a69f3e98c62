/**
 The values the dashboard receives from the operating system through psutil and GPUtil.
 Each library call either returns a value or raises; both outcomes are inputs to the model.
 */
module Readings {

  /** The outcome of one call into psutil or GPUtil. */
  datatype Call<+T> = Returns(value: T) | Raises

  /** One entry of a `sensors_temperatures()` list; only `current` is ever read. */
  datatype TempReading = TempReading(current: real)

  /** The dictionary returned by `psutil.sensors_temperatures()`: sensor label to its readings. */
  type SensorTable = map<string, seq<TempReading>>

  /** The fields of `psutil.virtual_memory()` the dashboard displays (bytes and percent). */
  datatype VirtualMemory = VirtualMemory(total: nat, used: nat, percent: real)

  /** The fields of `psutil.disk_usage('/')` the dashboard displays (bytes and percent). */
  datatype DiskUsage = DiskUsage(total: nat, used: nat, percent: real)

  /** The cumulative byte counters of `psutil.net_io_counters()`. */
  datatype NetCounters = NetCounters(bytesSent: nat, bytesRecv: nat)

  /** The fields of a `GPUtil` GPU object the dashboard displays; `memoryUtil` is a fraction. */
  datatype Gpu = Gpu(memoryUtil: real, temperature: real)

  /**
   Everything one refresh asks of the host, in the order the refresh asks it.
   The sensor table is queried twice per refresh, once for the CPU box and once for
   the memory box, and the two queries are independent reads.
   */
  datatype Host = Host(
    cpuPercent: Call<real>,
    cpuBoxSensors: Call<SensorTable>,
    memory: Call<VirtualMemory>,
    ramBoxSensors: Call<SensorTable>,
    disk: Call<DiskUsage>,
    net: Call<NetCounters>,
    gpus: Call<seq<Gpu>>)

  /** True when none of the calls whose exceptions escape a refresh raises. */
  predicate Completes(h: Host) {
    && h.cpuPercent.Returns?
    && h.memory.Returns?
    && h.disk.Returns?
    && h.net.Returns?
    && h.gpus.Returns?
  }
}
