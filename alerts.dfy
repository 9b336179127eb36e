/**
 * Threshold alerts of the system monitor: the comparison of the three
 * monitored percentages against a threshold record (check_alerts) and the
 * overall status derived from the resulting list.
 */
module Alerts {

  /** Severity of a breach. */
  datatype Level = Warning | Critical

  /** The three monitored ratio metrics, named after their tags `cpu_percent`,
      `memory_percent` and `disk_percent`. */
  datatype Metric = CpuPercent | MemoryPercent | DiskPercent

  /** The threshold bounds, one per metric (the source's THRESHOLDS dictionary,
      here an explicit record handed to the evaluator). */
  datatype Thresholds = Thresholds(cpuPercent: real, memoryPercent: real, diskPercent: real)

  /** The bounds the monitor starts with. */
  const Defaults: Thresholds := Thresholds(85.0, 85.0, 90.0)

  /** The alert sentence `<subject> usage <value>% exceeds <threshold>% threshold`,
      kept as its three parts rather than as rendered text. */
  datatype Message = Message(subject: string, value: real, threshold: real)

  /** One threshold breach. */
  datatype Alert = Alert(level: Level, metric: Metric, value: real, threshold: real, message: Message)

  /** The bound that applies to metric `m`. */
  function Bound(t: Thresholds, m: Metric): real
  {
    match m
    case CpuPercent => t.cpuPercent
    case MemoryPercent => t.memoryPercent
    case DiskPercent => t.diskPercent
  }

  /** The reading of metric `m` among the three percentages. */
  function Reading(m: Metric, cpu: real, mem: real, disk: real): real
  {
    match m
    case CpuPercent => cpu
    case MemoryPercent => mem
    case DiskPercent => disk
  }

  /** CPU and memory breaches are warnings; a disk breach is critical. */
  function LevelOf(m: Metric): Level
  {
    if m == DiskPercent then Critical else Warning
  }

  /** The first word of the alert sentence. */
  function Subject(m: Metric): string
  {
    match m
    case CpuPercent => "CPU"
    case MemoryPercent => "Memory"
    case DiskPercent => "Disk"
  }

  /** Position of a metric in the evaluation order cpu, memory, disk. */
  function Rank(m: Metric): nat
  {
    match m
    case CpuPercent => 0
    case MemoryPercent => 1
    case DiskPercent => 2
  }

  /** The alert record for a breach of metric `m` with reading `value`. */
  function Breach(m: Metric, value: real, t: Thresholds): Alert
  {
    Alert(LevelOf(m), m, value, Bound(t, m), Message(Subject(m), value, Bound(t, m)))
  }

  /** Metric `m` has an alert in `alerts`. */
  predicate Present(alerts: seq<Alert>, m: Metric)
  {
    exists i :: 0 <= i < |alerts| && alerts[i].metric == m
  }

  /** The metrics in `ms` are listed in strictly increasing evaluation order. */
  predicate InOrder(ms: seq<Metric>)
  {
    forall i, j :: 0 <= i < j < |ms| ==> Rank(ms[i]) < Rank(ms[j])
  }

  /** The metrics of `alerts`, in order. */
  function Metrics(alerts: seq<Alert>): (ms: seq<Metric>)
    ensures |ms| == |alerts|
    ensures forall i :: 0 <= i < |alerts| ==> ms[i] == alerts[i].metric
  {
    seq(|alerts|, i requires 0 <= i < |alerts| => alerts[i].metric)
  }

  /** The alert, if any, that metric `m` contributes: its breach record when
      its reading reaches its bound (the comparison is inclusive). */
  function AlertIf(m: Metric, cpu: real, mem: real, disk: real, t: Thresholds): seq<Alert>
  {
    var v := Reading(m, cpu, mem, disk);
    if v >= Bound(t, m) then [Breach(m, v, t)] else []
  }

  /** The evaluator applied to the metrics `ms`, in their order. */
  function Fired(ms: seq<Metric>, cpu: real, mem: real, disk: real, t: Thresholds): seq<Alert>
  {
    if ms == [] then [] else AlertIf(ms[0], cpu, mem, disk, t) + Fired(ms[1..], cpu, mem, disk, t)
  }

  lemma PresentConcat(a: seq<Alert>, b: seq<Alert>, m: Metric)
    ensures Present(a + b, m) <==> Present(a, m) || Present(b, m)
  {
    if Present(a + b, m) {
      var i :| 0 <= i < |a + b| && (a + b)[i].metric == m;
      if i >= |a| { assert b[i - |a|].metric == m; }
    }
    if Present(a, m) {
      var i :| 0 <= i < |a| && a[i].metric == m;
      assert (a + b)[i].metric == m;
    }
    if Present(b, m) {
      var i :| 0 <= i < |b| && b[i].metric == m;
      assert (a + b)[|a| + i].metric == m;
    }
  }

  lemma {:induction false} FiredLength(ms: seq<Metric>, cpu: real, mem: real, disk: real, t: Thresholds)
    ensures |Fired(ms, cpu, mem, disk, t)| <= |ms|
  {
    if ms != [] { FiredLength(ms[1..], cpu, mem, disk, t); }
  }

  /** A metric has an alert exactly when it is evaluated and its reading reaches its bound. */
  lemma {:induction false} FiredPresence(ms: seq<Metric>, cpu: real, mem: real, disk: real, t: Thresholds, x: Metric)
    ensures Present(Fired(ms, cpu, mem, disk, t), x) <==> x in ms && Reading(x, cpu, mem, disk) >= Bound(t, x)
  {
    if ms != [] {
      var a := AlertIf(ms[0], cpu, mem, disk, t);
      PresentConcat(a, Fired(ms[1..], cpu, mem, disk, t), x);
      FiredPresence(ms[1..], cpu, mem, disk, t, x);
      assert a != [] ==> a[0].metric == ms[0];
      assert x in ms <==> x == ms[0] || x in ms[1..];
    }
  }

  /** Every alert is the breach record of an evaluated metric, with that metric's reading. */
  lemma {:induction false} FiredContents(ms: seq<Metric>, cpu: real, mem: real, disk: real, t: Thresholds)
    ensures forall i :: 0 <= i < |Fired(ms, cpu, mem, disk, t)| ==>
              var a := Fired(ms, cpu, mem, disk, t)[i];
              a.metric in ms && a == Breach(a.metric, Reading(a.metric, cpu, mem, disk), t)
  {
    if ms != [] {
      var a := AlertIf(ms[0], cpu, mem, disk, t);
      var rest := Fired(ms[1..], cpu, mem, disk, t);
      FiredContents(ms[1..], cpu, mem, disk, t);
      assert forall i :: 0 <= i < |rest| ==> (a + rest)[|a| + i] == rest[i];
    }
  }

  /** The alerts come out in the order in which their metrics are evaluated. */
  lemma {:induction false} FiredInOrder(ms: seq<Metric>, cpu: real, mem: real, disk: real, t: Thresholds)
    requires InOrder(ms)
    ensures InOrder(Metrics(Fired(ms, cpu, mem, disk, t)))
  {
    if ms != [] {
      var a := AlertIf(ms[0], cpu, mem, disk, t);
      var rest := Fired(ms[1..], cpu, mem, disk, t);
      var r := a + rest;
      FiredInOrder(ms[1..], cpu, mem, disk, t);
      FiredContents(ms[1..], cpu, mem, disk, t);
      forall i, j | 0 <= i < j < |r| ensures Rank(r[i].metric) < Rank(r[j].metric) {
        if i < |a| {
          assert r[i].metric == ms[0] && r[j] == rest[j - 1];
          var k :| 0 <= k < |ms[1..]| && ms[1..][k] == rest[j - 1].metric;
          assert Rank(ms[0]) < Rank(ms[k + 1]);
        } else {
          assert Metrics(rest)[i - |a|] == r[i].metric && Metrics(rest)[j - |a|] == r[j].metric;
        }
      }
    }
  }

  /** All three metrics in evaluation order. */
  const Order: seq<Metric> := [CpuPercent, MemoryPercent, DiskPercent]

  /** The alerts for the readings `cpu`, `mem`, `disk` under `t`. */
  function Evaluate(cpu: real, mem: real, disk: real, t: Thresholds): (r: seq<Alert>)
    ensures |r| <= 3
    ensures forall m :: Present(r, m) <==> Reading(m, cpu, mem, disk) >= Bound(t, m)
    ensures forall i :: 0 <= i < |r| ==> r[i] == Breach(r[i].metric, Reading(r[i].metric, cpu, mem, disk), t)
    ensures InOrder(Metrics(r))
    ensures r == [] <==> cpu < t.cpuPercent && mem < t.memoryPercent && disk < t.diskPercent
  {
    var r := Fired(Order, cpu, mem, disk, t);
    FiredLength(Order, cpu, mem, disk, t);
    forall m ensures Present(r, m) <==> Reading(m, cpu, mem, disk) >= Bound(t, m) {
      FiredPresence(Order, cpu, mem, disk, t, m);
    }
    FiredContents(Order, cpu, mem, disk, t);
    FiredInOrder(Order, cpu, mem, disk, t);
    assert r != [] ==> Present(r, r[0].metric);
    assert Present(r, CpuPercent) <==> cpu >= t.cpuPercent;
    assert Present(r, MemoryPercent) <==> mem >= t.memoryPercent;
    assert Present(r, DiskPercent) <==> disk >= t.diskPercent;
    r
  }

  /** Alert lists whose every entry is its metric's breach record for the same
      readings (the shape every evaluator result has). */
  predicate Faithful(r: seq<Alert>, cpu: real, mem: real, disk: real, t: Thresholds)
  {
    forall i :: 0 <= i < |r| ==> r[i] == Breach(r[i].metric, Reading(r[i].metric, cpu, mem, disk), t)
  }

  /** In an ordered list, the metrics after the first are exactly the others present. */
  lemma TailPresent(a: seq<Alert>, m: Metric)
    requires a != [] && InOrder(Metrics(a))
    ensures Present(a[1..], m) <==> Present(a, m) && m != a[0].metric
    ensures Present(a, m) ==> Rank(a[0].metric) <= Rank(m)
  {
  }

  /** Two ordered lists naming the same metrics start with the same metric,
      and name the same metrics after it. */
  lemma SameFirstMetric(a: seq<Alert>, b: seq<Alert>)
    requires a != [] && b != [] && InOrder(Metrics(a)) && InOrder(Metrics(b))
    requires forall m :: Present(a, m) <==> Present(b, m)
    ensures a[0].metric == b[0].metric
    ensures forall m :: Present(a[1..], m) <==> Present(b[1..], m)
  {
    assert Present(a, a[0].metric) && Present(b, b[0].metric);
    TailPresent(a, b[0].metric);
    TailPresent(b, a[0].metric);
    forall m ensures Present(a[1..], m) <==> Present(b[1..], m) {
      TailPresent(a, m);
      TailPresent(b, m);
    }
  }

  lemma TailFacts(a: seq<Alert>, cpu: real, mem: real, disk: real, t: Thresholds)
    requires a != [] && InOrder(Metrics(a)) && Faithful(a, cpu, mem, disk, t)
    ensures InOrder(Metrics(a[1..])) && Faithful(a[1..], cpu, mem, disk, t)
    ensures a == [Breach(a[0].metric, Reading(a[0].metric, cpu, mem, disk), t)] + a[1..]
  {
    assert Metrics(a[1..]) == Metrics(a)[1..];
  }

  /** Two ordered, faithful alert lists that name the same metrics are equal. */
  lemma {:induction false} SameMetricsSameAlerts(a: seq<Alert>, b: seq<Alert>, cpu: real, mem: real, disk: real, t: Thresholds)
    requires InOrder(Metrics(a)) && InOrder(Metrics(b))
    requires Faithful(a, cpu, mem, disk, t) && Faithful(b, cpu, mem, disk, t)
    requires forall m :: Present(a, m) <==> Present(b, m)
    ensures a == b
    decreases |a|
  {
    if a == [] || b == [] {
      if a != [] { assert Present(a, a[0].metric); }
      if b != [] { assert Present(b, b[0].metric); }
    } else {
      SameFirstMetric(a, b);
      TailFacts(a, cpu, mem, disk, t);
      TailFacts(b, cpu, mem, disk, t);
      SameMetricsSameAlerts(a[1..], b[1..], cpu, mem, disk, t);
    }
  }

  /** The evaluator's contract determines its result: any list of breach records
      in evaluation order that names exactly the metrics at or above their
      bounds is the evaluator's list. */
  lemma EvaluateDetermined(r: seq<Alert>, cpu: real, mem: real, disk: real, t: Thresholds)
    requires forall m :: Present(r, m) <==> Reading(m, cpu, mem, disk) >= Bound(t, m)
    requires Faithful(r, cpu, mem, disk, t)
    requires InOrder(Metrics(r))
    ensures r == Evaluate(cpu, mem, disk, t)
  {
    SameMetricsSameAlerts(r, Evaluate(cpu, mem, disk, t), cpu, mem, disk, t);
  }

  /** Over the fixed order, the evaluator is the three contributions in turn. */
  lemma EvaluateSteps(cpu: real, mem: real, disk: real, t: Thresholds)
    ensures Evaluate(cpu, mem, disk, t)
         == AlertIf(CpuPercent, cpu, mem, disk, t) + AlertIf(MemoryPercent, cpu, mem, disk, t)
            + AlertIf(DiskPercent, cpu, mem, disk, t)
  {
    var o1, o2, o3 := Order[1..], Order[1..][1..], Order[1..][1..][1..];
    assert o1 == [MemoryPercent, DiskPercent] && o2 == [DiskPercent] && o3 == [];
    assert Fired(o3, cpu, mem, disk, t) == [];
    assert Fired(o2, cpu, mem, disk, t) == AlertIf(DiskPercent, cpu, mem, disk, t) + [];
    assert Fired(o1, cpu, mem, disk, t) == AlertIf(MemoryPercent, cpu, mem, disk, t) + Fired(o2, cpu, mem, disk, t);
  }

  /** check_alerts: the imperative evaluator, appending one alert per breached
      metric in the order cpu, memory, disk. */
  method CheckAlerts(cpu: real, mem: real, disk: real, t: Thresholds) returns (alerts: seq<Alert>)
    ensures alerts == Evaluate(cpu, mem, disk, t)
  {
    EvaluateSteps(cpu, mem, disk, t);
    alerts := [];
    if cpu >= t.cpuPercent {
      alerts := alerts + [Alert(Warning, CpuPercent, cpu, t.cpuPercent, Message("CPU", cpu, t.cpuPercent))];
    }
    if mem >= t.memoryPercent {
      alerts := alerts + [Alert(Warning, MemoryPercent, mem, t.memoryPercent, Message("Memory", mem, t.memoryPercent))];
    }
    if disk >= t.diskPercent {
      alerts := alerts + [Alert(Critical, DiskPercent, disk, t.diskPercent, Message("Disk", disk, t.diskPercent))];
    }
  }

  /** The overall status of a snapshot with the given alerts. */
  function Status(alerts: seq<Alert>): (s: string)
    ensures s == "ALERT" <==> |alerts| > 0
    ensures s == "OK" <==> |alerts| == 0
  {
    if |alerts| > 0 then "ALERT" else "OK"
  }

  /** A CPU alert is raised exactly when the CPU reading reaches its bound; it is
      a warning carrying the reading and the bound. */
  lemma CpuAlert(cpu: real, mem: real, disk: real, t: Thresholds)
    ensures Present(Evaluate(cpu, mem, disk, t), CpuPercent) <==> cpu >= t.cpuPercent
    ensures forall a :: a in Evaluate(cpu, mem, disk, t) && a.metric == CpuPercent ==>
              a == Alert(Warning, CpuPercent, cpu, t.cpuPercent, Message("CPU", cpu, t.cpuPercent))
  {
  }

  /** A memory alert is raised exactly when the memory reading reaches its bound;
      it is a warning carrying the reading and the bound. */
  lemma MemoryAlert(cpu: real, mem: real, disk: real, t: Thresholds)
    ensures Present(Evaluate(cpu, mem, disk, t), MemoryPercent) <==> mem >= t.memoryPercent
    ensures forall a :: a in Evaluate(cpu, mem, disk, t) && a.metric == MemoryPercent ==>
              a == Alert(Warning, MemoryPercent, mem, t.memoryPercent, Message("Memory", mem, t.memoryPercent))
  {
  }

  /** A disk alert is raised exactly when the disk reading reaches its bound; it
      is always critical. */
  lemma DiskAlert(cpu: real, mem: real, disk: real, t: Thresholds)
    ensures Present(Evaluate(cpu, mem, disk, t), DiskPercent) <==> disk >= t.diskPercent
    ensures forall a :: a in Evaluate(cpu, mem, disk, t) && a.metric == DiskPercent ==>
              a == Alert(Critical, DiskPercent, disk, t.diskPercent, Message("Disk", disk, t.diskPercent))
  {
  }

  /** No metric is reported twice. */
  lemma MetricsDistinct(cpu: real, mem: real, disk: real, t: Thresholds)
    ensures forall i, j :: 0 <= i < j < |Evaluate(cpu, mem, disk, t)| ==>
              Evaluate(cpu, mem, disk, t)[i].metric != Evaluate(cpu, mem, disk, t)[j].metric
  {
    var r := Evaluate(cpu, mem, disk, t);
    forall i, j | 0 <= i < j < |r| ensures r[i].metric != r[j].metric {
      assert Metrics(r)[i] == r[i].metric && Metrics(r)[j] == r[j].metric;
    }
  }

  /** The status is OK exactly when every reading stays below its bound. */
  lemma StatusOkIffAllBelow(cpu: real, mem: real, disk: real, t: Thresholds)
    ensures Status(Evaluate(cpu, mem, disk, t)) == "OK" <==>
              cpu < t.cpuPercent && mem < t.memoryPercent && disk < t.diskPercent
    ensures Status(Evaluate(cpu, mem, disk, t)) in {"OK", "ALERT"}
  {
  }

  /** Readings 10, 20, 30 stay below the default bounds: no alert. */
  lemma NoAlertsBelowDefaults()
    ensures Evaluate(10.0, 20.0, 30.0, Defaults) == []
  {
  }

  /** A CPU reading of 84.9 under a bound of 85 does not fire. */
  lemma NoAlertJustBelow(mem: real, disk: real, t: Thresholds)
    requires t.cpuPercent == 85.0
    ensures !Present(Evaluate(84.9, mem, disk, t), CpuPercent)
  {
  }

  /** A reading exactly at its bound fires: the comparison is inclusive. */
  lemma DiskAtBoundIsCritical(cpu: real, mem: real)
    ensures Present(Evaluate(cpu, mem, 90.0, Defaults), DiskPercent)
    ensures forall a :: a in Evaluate(cpu, mem, 90.0, Defaults) && a.metric == DiskPercent ==> a.level == Critical
  {
  }

  /** CPU at 90, memory at 20 and disk at 95 under the defaults give a CPU
      warning followed by a critical disk alert, and status ALERT. */
  lemma CpuAndDiskScenario()
    ensures Evaluate(90.0, 20.0, 95.0, Defaults)
         == [Alert(Warning, CpuPercent, 90.0, 85.0, Message("CPU", 90.0, 85.0)),
             Alert(Critical, DiskPercent, 95.0, 90.0, Message("Disk", 95.0, 90.0))]
    ensures Status(Evaluate(90.0, 20.0, 95.0, Defaults)) == "ALERT"
  {
    EvaluateSteps(90.0, 20.0, 95.0, Defaults);
  }
}
