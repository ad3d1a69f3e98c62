/**
 The dashboard window's state and its once-per-second refresh (`update_stats`).
 The window holds the text of five stat boxes, the two usage histories, and the series
 last plotted in the two graphs. A refresh runs its blocks in source order; a library
 call that raises aborts the rest of the refresh, keeping the effects of earlier blocks.
 */
module Dashboard {
  import opened Wrappers
  import opened Readings
  import opened Temperature
  import opened Units

  /** What each stat box shows once it has been written. */
  datatype CpuText = CpuText(usage: real, temp: Option<real>)
  datatype RamText = RamText(usedMB: nat, totalMB: nat, usage: real, temp: Option<real>)
  datatype DiskText = DiskText(usedGB: nat, totalGB: nat, usage: real)
  datatype NetText = NetText(sentMB: nat, recvMB: nat)
  datatype GpuText = GpuText(usage: real, temp: real)

  /** A stat box shows "Loading..." until its first update. */
  datatype Box<+T> = Loading | Shows(text: T)

  datatype Window = Window(
    cpuBox: Box<CpuText>,
    ramBox: Box<RamText>,
    diskBox: Box<DiskText>,
    netBox: Box<NetText>,
    gpuBox: Box<GpuText>,
    cpuUsageData: seq<real>,
    memUsageData: seq<real>,
    cpuPlot: seq<real>,
    memPlot: seq<real>)

  /** The window after it has been laid out and before its first refresh: nothing shown, empty histories. */
  function Fresh(): Window {
    Window(Loading, Loading, Loading, Loading, Loading, [], [], [], [])
  }

  /** The window after a refresh, and whether the refresh was cut short by an exception. */
  datatype Step = Step(window: Window, raised: bool)

  /** CPU block: read the usage, show it with a temperature lookup, append it to the CPU history. */
  function CpuBlock(w: Window, h: Host): Step {
    match h.cpuPercent
    case Raises => Step(w, true)
    case Returns(cpu) =>
      Step(w.(cpuBox := Shows(CpuText(cpu, GetTemp(CpuSensor, h.cpuBoxSensors))),
              cpuUsageData := w.cpuUsageData + [cpu]), false)
  }

  /** Memory block: show used and total in MB with a second temperature lookup, append the percent. */
  function MemoryBlock(w: Window, h: Host): Step {
    match h.memory
    case Raises => Step(w, true)
    case Returns(mem) =>
      Step(w.(ramBox := Shows(RamText(ToMB(mem.used), ToMB(mem.total), mem.percent,
                                      GetTemp(CpuSensor, h.ramBoxSensors))),
              memUsageData := w.memUsageData + [mem.percent]), false)
  }

  /** Disk block: show used and total in GB. */
  function DiskBlock(w: Window, h: Host): Step {
    match h.disk
    case Raises => Step(w, true)
    case Returns(d) => Step(w.(diskBox := Shows(DiskText(ToGB(d.used), ToGB(d.total), d.percent))), false)
  }

  /** Network block: show the cumulative counters in MB. */
  function NetworkBlock(w: Window, h: Host): Step {
    match h.net
    case Raises => Step(w, true)
    case Returns(n) => Step(w.(netBox := Shows(NetText(ToMB(n.bytesSent), ToMB(n.bytesRecv)))), false)
  }

  /** GPU block: only a non-empty GPU list updates the box, and only from its first GPU. */
  function GpuBlock(w: Window, h: Host): Step {
    match h.gpus
    case Raises => Step(w, true)
    case Returns(gpus) =>
      if |gpus| > 0 then
        Step(w.(gpuBox := Shows(GpuText(gpus[0].memoryUtil * 100.0, gpus[0].temperature))), false)
      else
        Step(w, false)
  }

  /** Graph block: each graph is redrawn from its whole history. */
  function RedrawGraphs(w: Window): Window {
    w.(cpuPlot := w.cpuUsageData, memPlot := w.memUsageData)
  }

  /** One refresh, `update_stats`. */
  function Tick(w: Window, h: Host): (s: Step)
    ensures s.raised <==> !Completes(h)
    ensures h.cpuPercent.Raises? ==> s.window == w
    ensures h.cpuPercent.Returns? ==> s.window.cpuUsageData == w.cpuUsageData + [h.cpuPercent.value]
    ensures h.cpuPercent.Returns? && h.memory.Returns? ==>
      s.window.memUsageData == w.memUsageData + [h.memory.value.percent]
    ensures !(h.cpuPercent.Returns? && h.memory.Returns?) ==> s.window.memUsageData == w.memUsageData
    ensures s.raised ==> s.window.cpuPlot == w.cpuPlot && s.window.memPlot == w.memPlot
  {
    var s1 := CpuBlock(w, h);
    if s1.raised then s1 else
    var s2 := MemoryBlock(s1.window, h);
    if s2.raised then s2 else
    var s3 := DiskBlock(s2.window, h);
    if s3.raised then s3 else
    var s4 := NetworkBlock(s3.window, h);
    if s4.raised then s4 else
    var s5 := GpuBlock(s4.window, h);
    if s5.raised then s5 else
    Step(RedrawGraphs(s5.window), false)
  }

  /**
   Construction: lay out the window, start with empty histories, refresh once. An exception
   in that first refresh escapes the constructor, so no window exists.
   */
  function Init(first: Host): (w: Option<Window>)
    ensures w.Some? <==> Completes(first)
    ensures w.Some? ==> w.value.cpuUsageData == [first.cpuPercent.value]
    ensures w.Some? ==> w.value.memUsageData == [first.memory.value.percent]
  {
    var s := Tick(Fresh(), first);
    if s.raised then None else Some(s.window)
  }

  /** The timer firing once per element of `hosts`; a refresh that raised does not stop the timer. */
  function Run(w: Window, hosts: seq<Host>): (r: Window)
    ensures |r.cpuUsageData| <= |w.cpuUsageData| + |hosts|
    ensures |r.memUsageData| <= |w.memUsageData| + |hosts|
    decreases |hosts|
  {
    if |hosts| == 0 then w else Run(Tick(w, hosts[0]).window, hosts[1..])
  }

  /** The CPU samples a run of refreshes records: one per refresh whose CPU call returned. */
  function CpuSamples(hosts: seq<Host>): (xs: seq<real>)
    ensures |xs| <= |hosts|
  {
    if |hosts| == 0 then []
    else
      (if hosts[0].cpuPercent.Returns? then [hosts[0].cpuPercent.value] else [])
      + CpuSamples(hosts[1..])
  }

  /** The memory samples a run records: one per refresh whose CPU and memory calls both returned. */
  function MemSamples(hosts: seq<Host>): (xs: seq<real>)
    ensures |xs| <= |CpuSamples(hosts)|
  {
    if |hosts| == 0 then []
    else
      (if hosts[0].cpuPercent.Returns? && hosts[0].memory.Returns?
       then [hosts[0].memory.value.percent] else [])
      + MemSamples(hosts[1..])
  }

  /** The CPU history after a run is its earlier contents followed by the CPU samples the run recorded. */
  lemma {:induction false} RunCpuHistory(w: Window, hosts: seq<Host>)
    ensures Run(w, hosts).cpuUsageData == w.cpuUsageData + CpuSamples(hosts)
    decreases |hosts|
  {
    if |hosts| > 0 {
      var h := hosts[0];
      var w' := Tick(w, h).window;
      assert Run(w, hosts) == Run(w', hosts[1..]);
      RunCpuHistory(w', hosts[1..]);
      var c := if h.cpuPercent.Returns? then [h.cpuPercent.value] else [];
      assert w'.cpuUsageData == w.cpuUsageData + c;
      assert CpuSamples(hosts) == c + CpuSamples(hosts[1..]);
      assert (w.cpuUsageData + c) + CpuSamples(hosts[1..]) == w.cpuUsageData + (c + CpuSamples(hosts[1..]));
    }
  }

  /** The memory history after a run is its earlier contents followed by the memory samples the run recorded. */
  lemma {:induction false} RunMemHistory(w: Window, hosts: seq<Host>)
    ensures Run(w, hosts).memUsageData == w.memUsageData + MemSamples(hosts)
    decreases |hosts|
  {
    if |hosts| > 0 {
      var h := hosts[0];
      var w' := Tick(w, h).window;
      assert Run(w, hosts) == Run(w', hosts[1..]);
      RunMemHistory(w', hosts[1..]);
      var m := if h.cpuPercent.Returns? && h.memory.Returns? then [h.memory.value.percent] else [];
      assert w'.memUsageData == w.memUsageData + m;
      assert MemSamples(hosts) == m + MemSamples(hosts[1..]);
      assert (w.memUsageData + m) + MemSamples(hosts[1..]) == w.memUsageData + (m + MemSamples(hosts[1..]));
    }
  }

  /**
   The histories are append-only and unbounded: after any run they are the earlier
   histories followed by exactly the samples the run recorded, in order.
   */
  lemma RunHistories(w: Window, hosts: seq<Host>)
    ensures Run(w, hosts).cpuUsageData == w.cpuUsageData + CpuSamples(hosts)
    ensures Run(w, hosts).memUsageData == w.memUsageData + MemSamples(hosts)
  {
    RunCpuHistory(w, hosts);
    RunMemHistory(w, hosts);
  }

  /** When every refresh completes, each one records its own CPU and memory percentage. */
  lemma {:induction false} SamplesOfCompletingRun(hosts: seq<Host>)
    requires forall i :: 0 <= i < |hosts| ==> Completes(hosts[i])
    ensures |CpuSamples(hosts)| == |MemSamples(hosts)| == |hosts|
    ensures forall i :: 0 <= i < |hosts| ==> hosts[i].cpuPercent.Returns? && CpuSamples(hosts)[i] == hosts[i].cpuPercent.value
    ensures forall i :: 0 <= i < |hosts| ==> hosts[i].memory.Returns? && MemSamples(hosts)[i] == hosts[i].memory.value.percent
  {
    if |hosts| > 0 {
      assert Completes(hosts[0]);
      assert forall i :: 0 <= i < |hosts[1..]| ==> hosts[1..][i] == hosts[i + 1];
      SamplesOfCompletingRun(hosts[1..]);
    }
  }

  /**
   Construction followed by k completing refreshes leaves both histories with k + 1
   samples: nothing is ever evicted.
   */
  lemma LengthAfterConstruction(first: Host, hosts: seq<Host>)
    requires Init(first).Some?
    requires forall i :: 0 <= i < |hosts| ==> Completes(hosts[i])
    ensures |Run(Init(first).value, hosts).cpuUsageData| == |hosts| + 1
    ensures |Run(Init(first).value, hosts).memUsageData| == |hosts| + 1
    ensures Run(Init(first).value, hosts).cpuUsageData[0] == first.cpuPercent.value
    ensures Run(Init(first).value, hosts).memUsageData[0] == first.memory.value.percent
  {
    RunHistories(Init(first).value, hosts);
    SamplesOfCompletingRun(hosts);
  }

  /** Earlier history entries are never changed: the old histories are prefixes of the new ones. */
  lemma RunKeepsPrefix(w: Window, hosts: seq<Host>)
    ensures w.cpuUsageData <= Run(w, hosts).cpuUsageData
    ensures w.memUsageData <= Run(w, hosts).memUsageData
  {
    RunHistories(w, hosts);
  }

  /** The memory history never gets ahead of the CPU history. */
  lemma MemoryNeverAhead(w: Window, hosts: seq<Host>)
    requires |w.memUsageData| <= |w.cpuUsageData|
    ensures |Run(w, hosts).memUsageData| <= |Run(w, hosts).cpuUsageData|
  {
    RunHistories(w, hosts);
  }

  /** A completing refresh grows both histories by one, so equal lengths stay equal. */
  lemma CompletingTickKeepsLengthsEqual(w: Window, h: Host)
    requires Completes(h)
    requires |w.cpuUsageData| == |w.memUsageData|
    ensures |Tick(w, h).window.cpuUsageData| == |Tick(w, h).window.memUsageData| == |w.cpuUsageData| + 1
  {
  }

  /**
   A `virtual_memory()` call that raises comes after the CPU sample was appended, so the
   two histories fall out of step by one.
   */
  lemma MemoryRaiseDesynchronises(w: Window, h: Host)
    requires h.cpuPercent.Returns? && h.memory.Raises?
    ensures |Tick(w, h).window.cpuUsageData| == |w.cpuUsageData| + 1
    ensures Tick(w, h).window.memUsageData == w.memUsageData
    ensures Tick(w, h).window.cpuPlot == w.cpuPlot
    ensures Tick(w, h).window.memPlot == w.memPlot
  {
  }

  /**
   A `disk_usage('/')` call that raises stops the refresh after both histories have grown:
   the disk, network and GPU boxes keep their text and neither graph is redrawn.
   */
  lemma DiskRaiseStopsRefresh(w: Window, h: Host)
    requires h.cpuPercent.Returns? && h.memory.Returns? && h.disk.Raises?
    ensures Tick(w, h).window.cpuUsageData == w.cpuUsageData + [h.cpuPercent.value]
    ensures Tick(w, h).window.memUsageData == w.memUsageData + [h.memory.value.percent]
    ensures Tick(w, h).window.diskBox == w.diskBox
    ensures Tick(w, h).window.netBox == w.netBox
    ensures Tick(w, h).window.gpuBox == w.gpuBox
    ensures Tick(w, h).window.cpuPlot == w.cpuPlot && Tick(w, h).window.memPlot == w.memPlot
  {
  }

  /** After a completing refresh each graph shows its whole history. */
  lemma CompletingTickRedraws(w: Window, h: Host)
    requires Completes(h)
    ensures Tick(w, h).window.cpuPlot == Tick(w, h).window.cpuUsageData
    ensures Tick(w, h).window.memPlot == Tick(w, h).window.memUsageData
  {
  }

  /**
   The GPU box is written only from the first GPU of a non-empty list; an empty list leaves
   whatever the box showed before, which may be an earlier refresh's reading.
   */
  lemma GpuBoxRule(w: Window, h: Host)
    requires Completes(h)
    ensures |h.gpus.value| > 0 ==>
      Tick(w, h).window.gpuBox == Shows(GpuText(h.gpus.value[0].memoryUtil * 100.0, h.gpus.value[0].temperature))
    ensures |h.gpus.value| == 0 ==> Tick(w, h).window.gpuBox == w.gpuBox
  {
  }

  /**
   The readouts of a completing refresh: sizes are floor-divided byte counts, and each of the
   two temperature fields comes from its own sensor query.
   */
  lemma CompletingTickReadouts(w: Window, h: Host)
    requires Completes(h)
    ensures Tick(w, h).window.cpuBox == Shows(CpuText(h.cpuPercent.value, GetTemp(CpuSensor, h.cpuBoxSensors)))
    ensures Tick(w, h).window.ramBox.Shows?
    ensures Tick(w, h).window.ramBox.text.usedMB * MiB <= h.memory.value.used
    ensures h.memory.value.used < (Tick(w, h).window.ramBox.text.usedMB + 1) * MiB
    ensures Tick(w, h).window.ramBox.text.totalMB == ToMB(h.memory.value.total)
    ensures Tick(w, h).window.ramBox.text.usage == h.memory.value.percent
    ensures Tick(w, h).window.ramBox.text.temp == GetTemp(CpuSensor, h.ramBoxSensors)
    ensures Tick(w, h).window.diskBox == Shows(DiskText(ToGB(h.disk.value.used), ToGB(h.disk.value.total), h.disk.value.percent))
    ensures Tick(w, h).window.netBox == Shows(NetText(ToMB(h.net.value.bytesSent), ToMB(h.net.value.bytesRecv)))
  {
  }

  /** A GPU list that is never non-empty leaves the GPU box at "Loading..." forever. */
  lemma {:induction false} GpuBoxStaysLoading(w: Window, hosts: seq<Host>)
    requires w.gpuBox == Loading
    requires forall i :: 0 <= i < |hosts| ==> !(hosts[i].gpus.Returns? && |hosts[i].gpus.value| > 0)
    ensures Run(w, hosts).gpuBox == Loading
    decreases |hosts|
  {
    if |hosts| > 0 {
      assert forall i :: 0 <= i < |hosts[1..]| ==> hosts[1..][i] == hosts[i + 1];
      GpuBoxStaysLoading(Tick(w, hosts[0]).window, hosts[1..]);
    }
  }
}
