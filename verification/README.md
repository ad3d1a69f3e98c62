# DataView-86 dashboard core, modelled in Dafny

DataView-86 is a desktop dashboard. Once per second it samples CPU, memory, disk, network and GPU
figures and shows them in five stat boxes. It also keeps the CPU and memory percentages in two
histories that are plotted as graphs. This project models the logic of the dashboard window
(`MainWindow` in `main.py`) as pure functions over abstracted inputs:

- `Temperature` models the CPU temperature lookup `get_temp`. The sensor table is a map from label
  to a list of readings. `coretemp` is tried first and `cpu_thermal` second. Any exception inside
  the lookup gives "N/A", which is modelled as `None`.
- `Units` models the integer floor divisions by 1024² (MB) and 1024³ (GB) used in the readouts.
- `Dashboard` models the window state and one refresh, `update_stats`. It also models construction
  (empty histories, then one refresh) and a run of timer ticks.
- `Readings` holds the results of the psutil and GPUtil calls. Each call either returns a value or
  raises, and both outcomes are inputs (`Call<T>`).

How the code behaves, which is what the model follows:

- The histories are plain lists. They are unbounded and only ever appended to; nothing is evicted.
- The sensor query is made twice per refresh, once for the CPU box and once for the memory box.
  The two reads are independent.
- Only `get_temp` catches exceptions. An exception from `cpu_percent`, `virtual_memory`,
  `disk_usage`, `net_io_counters` or `getGPUs` ends the refresh at that point. The effects of the
  blocks that already ran are kept.
- If the first refresh raises, the exception leaves the constructor and no window exists (`Init`
  gives `None`). For later refreshes the model assumes the Qt binding reports an exception that
  escapes the timer slot and keeps the timer running (PySide6 does this). So `Run` goes on after a
  refresh that raised.
- `MemoryRaiseDesynchronises` shows one consequence. When `virtual_memory()` raises, the CPU
  sample has already been appended, so the two histories end up with different lengths.
- An empty GPU list leaves the GPU box as it was. The box then shows "Loading..." or an earlier
  refresh's reading.

## Model

| member | source | states |
|---|---|---|
| Temperature.GetTemp | main.py:134-145 | A temperature only for the argument `'cpu'`. A raising sensor query gives "N/A". Any temperature returned is the first reading of `coretemp` or of `cpu_thermal`. |
| Temperature.Consulted | main.py:139-142 | The label consulted is the first label in the preference list that is present in the table. It is `None` exactly when no preferred label is present. |
| Temperature.GetTempMeansReports | main.py:136-145 | For a table that was obtained, the lookup returns `t` if and only if the preferred present label has a non-empty list whose first reading is `t`. |
| Temperature.GetTempNotAvailable | main.py:137-145 | The lookup is "N/A" if and only if no temperature is reported under the label preference. |
| Temperature.PrimaryWins | main.py:139-140 | A non-empty `coretemp` list gives its first reading, whether or not `cpu_thermal` is present. |
| Temperature.FallbackUsed | main.py:141-142 | Without `coretemp`, a non-empty `cpu_thermal` list gives its first reading. |
| Temperature.NeitherLabel | main.py:138-145 | With neither label present, the `try` block falls through and the result is "N/A". |
| Temperature.EmptyPrimaryNoFallback | main.py:139-145 | An empty `coretemp` list raises `IndexError`, which is swallowed, giving "N/A". `cpu_thermal` is never consulted. |
| Temperature.EmptyFallback | main.py:141-145 | With `coretemp` absent, an empty `cpu_thermal` list also gives "N/A". |
| Temperature.OtherSensorIgnoresTable | main.py:136-145 | Any argument other than `'cpu'` gives "N/A", whatever the sensor query yields. |
| Units.ToMB | main.py:106 | The displayed megabytes `m` satisfy `m*1024² <= bytes < (m+1)*1024²`. |
| Units.ToGB | main.py:113 | The displayed gigabytes `g` satisfy `g*1024³ <= bytes < (g+1)*1024³`. |
| Units.FloorUnique | main.py:106 | At most one quotient satisfies the floor bounds, so the bounds determine the displayed value. |
| Units.ToMBCharacterised | main.py:119 | A count equals the MB readout if and only if it satisfies the 1024² floor bounds. |
| Units.ToGBCharacterised | main.py:113 | A count equals the GB readout if and only if it satisfies the 1024³ floor bounds. |
| Units.ToMBMonotone | main.py:106 | More bytes never show as fewer MB. |
| Units.ToGBMonotone | main.py:113 | More bytes never show as fewer GB. |
| Dashboard.Tick | main.py:97-132 | A refresh raises exactly when one of the uncaught library calls raises. A raising CPU call changes nothing. Otherwise the CPU history gains exactly this tick's CPU percentage at its end. The memory history gains this tick's memory percentage if the memory call also returned, and is unchanged if not. A refresh that raised redraws neither graph. |
| Dashboard.Init | main.py:91-95 | Construction succeeds exactly when the first refresh completes. The histories then hold exactly the first CPU and memory percentages. |
| Dashboard.MemSamples | main.py:99-108 | A run records no more memory samples than CPU samples. |
| Dashboard.Run | main.py:87-95 | Each tick adds at most one sample to each history. That the timer keeps calling the refresh after one that raised is proved by `RunCpuHistory` and `RunMemHistory`, where samples from ticks after a raising one are still recorded. |
| Dashboard.CpuSamples | main.py:99-101 | A run records at most one CPU sample per tick: one for each tick whose CPU call returned. |
| Dashboard.RunCpuHistory | main.py:99-101 | After any run, the CPU history is its earlier contents followed by exactly the CPU samples the run recorded, in order. |
| Dashboard.RunMemHistory | main.py:104-108 | After any run, the memory history is its earlier contents followed by exactly the memory samples the run recorded, in order. |
| Dashboard.RunHistories | main.py:101-108 | After any run of ticks, each history is its earlier contents followed by exactly the samples the run recorded, in order. |
| Dashboard.SamplesOfCompletingRun | main.py:101-108 | When every tick completes, the run records one CPU and one memory sample per tick, each equal to that tick's percentage. |
| Dashboard.LengthAfterConstruction | main.py:92-108 | After construction and k completing ticks, both histories have length k+1. The CPU history begins with the first CPU percentage and the memory history with the first memory percentage. There is no capacity bound. |
| Dashboard.RunKeepsPrefix | main.py:101-108 | Earlier history entries are never changed: the old histories are prefixes of the new ones. |
| Dashboard.MemoryNeverAhead | main.py:99-108 | If the memory history starts no longer than the CPU history, it stays no longer. |
| Dashboard.CompletingTickKeepsLengthsEqual | main.py:99-108 | A completing refresh grows both histories by exactly one, so equal lengths stay equal. |
| Dashboard.MemoryRaiseDesynchronises | main.py:99-104 | If `virtual_memory()` raises after the CPU append, the CPU history grows by one while the memory history and the graphs stay unchanged. |
| Dashboard.DiskRaiseStopsRefresh | main.py:99-132 | If `disk_usage` raises, both histories have already grown by this tick's sample. The disk, network and GPU boxes keep their text, and neither graph is redrawn. |
| Dashboard.CompletingTickRedraws | main.py:130-132 | After a completing refresh, each graph plots its whole history. |
| Dashboard.GpuBoxRule | main.py:122-128 | A non-empty GPU list sets the GPU box from its first GPU only. An empty list leaves the box unchanged. |
| Dashboard.CompletingTickReadouts | main.py:99-120 | The CPU box shows this tick's usage. The memory box shows used memory in MB, obeying the floor bounds, together with total MB and this tick's memory percentage. Disk and network sizes are the unit conversions of this tick's byte counts. Each temperature field comes from its own sensor query. |
| Dashboard.GpuBoxStaysLoading | main.py:122-128 | If no tick ever returns a non-empty GPU list, the GPU box keeps showing "Loading...". |

## Left out

- Qt widgets, layout and the stylesheet (`StatBox`, `GraphBox`, `MainWindow` layout, `main`) are
  presentation. A box is modelled only as "Loading..." or the values it shows.
- Matplotlib drawing in `GraphBox.update_graph` is rendering. A graph is modelled as the series it
  was last given.
- `QTimer` scheduling and the Qt event loop are event-loop plumbing. One tick is a synchronous step,
  and a run is a sequence of ticks.
- psutil and GPUtil are foreign library I/O. Their results, including raising, are inputs.
  `sensors_temperatures()` entries are reduced to their `current` field, the only one read.
- Float formatting of percentages, and `memoryUtil * 100` shown with one decimal, is
  floating-point display. Percentages and temperatures are exact reals, and text rendering is not
  modelled.
- Negative byte counts cannot occur, because psutil reports sizes and counters as non-negative
  integers. Python's floor division is therefore modelled by Dafny's `/` on naturals.
- Exceptions that `except Exception` does not catch (such as `KeyboardInterrupt`) are process-level
  events and are not modelled.
