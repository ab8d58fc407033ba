/**
 * The per-device daily summary of `logs_day` (backend.py:376-429): one row
 * per device, in order of device id, with its pass and fail counts, their
 * total and the day's metric note.
 */
module DailyLogs {
  import opened Wrappers
  import opened Reports

  /** Python's `<` on `str`: code point by code point, a proper prefix first. */
  predicate LexLess(a: string, b: string)
    decreases |a|
  {
    if a == [] then b != []
    else if b == [] then false
    else if a[0] != b[0] then a[0] < b[0]
    else LexLess(a[1..], b[1..])
  }

  lemma {:induction false} LexIrreflexive(a: string)
    ensures !LexLess(a, a)
    decreases |a|
  {
    if a != [] {
      LexIrreflexive(a[1..]);
    }
  }

  lemma {:induction false} LexTransitive(a: string, b: string, c: string)
    requires LexLess(a, b) && LexLess(b, c)
    ensures LexLess(a, c)
    decreases |a|
  {
    if a != [] && b != [] && c != [] && a[0] == b[0] && b[0] == c[0] {
      LexTransitive(a[1..], b[1..], c[1..]);
    }
  }

  lemma {:induction false} LexTotal(a: string, b: string)
    requires a != b
    ensures LexLess(a, b) || LexLess(b, a)
    decreases |a|
  {
    if a != [] && b != [] && a[0] == b[0] {
      assert a == [a[0]] + a[1..] && b == [b[0]] + b[1..];
      LexTotal(a[1..], b[1..]);
    }
  }

  /** In increasing order with no repeats, as `sorted(set)` gives. */
  predicate StrictlySorted(s: seq<string>) {
    forall i, j :: 0 <= i < j < |s| ==> LexLess(s[i], s[j])
  }

  predicate IsLeast(m: string, s: set<string>) {
    m in s && forall x :: x in s && x != m ==> LexLess(m, x)
  }

  /** A finite non-empty set of strings has a least element. */
  lemma {:induction false} LeastExists(s: set<string>)
    requires s != {}
    ensures exists m :: IsLeast(m, s)
    decreases |s|
  {
    var y :| y in s;
    if s != {y} {
      var rest := s - {y};
      LeastExists(rest);
      var m :| IsLeast(m, rest);
      LexTotal(m, y);
      if LexLess(m, y) {
        assert IsLeast(m, s);
      } else {
        forall x | x in s && x != y
          ensures LexLess(y, x)
        {
          if x != m {
            LexTransitive(y, m, x);
          }
        }
        assert IsLeast(y, s);
      }
    } else {
      assert IsLeast(y, s);
    }
  }

  /** `sorted(s)` for a set of device ids. */
  method SortDevices(s: set<string>) returns (devs: seq<string>)
    ensures StrictlySorted(devs)
    ensures forall d :: d in devs <==> d in s
  {
    devs := [];
    var rest := s;
    while rest != {}
      invariant StrictlySorted(devs)
      invariant forall d :: d in s <==> d in devs || d in rest
      invariant forall d :: d in devs ==> d !in rest
      invariant forall i, x :: 0 <= i < |devs| && x in rest ==> LexLess(devs[i], x)
      decreases |rest|
    {
      LeastExists(rest);
      var m :| IsLeast(m, rest);
      devs := devs + [m];
      rest := rest - {m};
    }
  }

  /** Two sorted lists of the same ids are the same list: the order `sorted` produces is the only one. */
  lemma {:induction false} SortedUnique(a: seq<string>, b: seq<string>)
    requires StrictlySorted(a) && StrictlySorted(b)
    requires forall d :: d in a <==> d in b
    ensures a == b
    decreases |a|
  {
    EmptyTogether(a, b);
    if a != [] && b != [] {
      if a[0] != b[0] {
        assert a[0] in b;
        var j :| 0 < j < |b| && b[j] == a[0];
        assert b[0] in a;
        var i :| 0 < i < |a| && a[i] == b[0];
        LexTransitive(a[0], a[i], a[0]);
        LexIrreflexive(a[0]);
      }
      forall d ensures d in a[1..] <==> d in b[1..] {
        if d in a[1..] {
          TailMember(a, b, d);
        }
        if d in b[1..] {
          TailMember(b, a, d);
        }
      }
      SortedUnique(a[1..], b[1..]);
    }
  }

  lemma EmptyTogether(a: seq<string>, b: seq<string>)
    requires forall x :: x in a <==> x in b
    ensures a == [] <==> b == []
  {
    if a != [] {
      assert a[0] in a;
    }
    if b != [] {
      assert b[0] in b;
    }
  }

  lemma TailMember(a: seq<string>, b: seq<string>, d: string)
    requires StrictlySorted(a) && StrictlySorted(b)
    requires forall x :: x in a <==> x in b
    requires a != [] && b != [] && a[0] == b[0]
    requires d in a[1..]
    ensures d in b[1..]
  {
    var i :| 1 <= i < |a| && a[i] == d;
    assert LexLess(a[0], a[i]);
    LexIrreflexive(a[0]);
    assert d in b;
    var j :| 0 <= j < |b| && b[j] == d;
    assert j != 0;
    assert b[1..][j - 1] == d;
  }

  /** A row of the per-device query: the device id and the two sums. */
  datatype StatRow = StatRow(device: string, pass: Option<int>, fail: Option<int>)

  /** A row of `DailyMetrics` for the day: the device id and its note, NULL allowed. */
  datatype MetricRow = MetricRow(device: string, metric: Option<string>)

  function StatDevice(r: StatRow): string {
    r.device
  }

  function MetricDevice(r: MetricRow): string {
    r.device
  }

  /** One output row of `logs_day`. */
  datatype LogRow = LogRow(deviceId: string, name: string, pass: int, fail: int, total: int, metric: string)

  /** The devices reported: the registered names and every id with stats or a metric, or only the filtered device. */
  function AllDevices(names: seq<string>, stats: seq<StatRow>, metrics: seq<MetricRow>, device: Option<string>): set<string> {
    if Given(device) then {device.value}
    else
      (set n | n in names) + (set r | r in stats :: r.device) + (set r | r in metrics :: r.device)
  }

  /** The counts of a device: those of its last stats row, or zeros (`stats.get(dev, {}).get("Pass", 0)`). */
  function DeviceCounts(stats: seq<StatRow>, dev: string): Counts {
    match Latest(stats, StatDevice, dev)
    case Some(r) => Counts(OrZero(r.pass), OrZero(r.fail))
    case None => Counts(0, 0)
  }

  /** `metrics.get(dev) or ""` */
  function DeviceMetric(metrics: seq<MetricRow>, dev: string): string {
    match Latest(metrics, MetricDevice, dev)
    case Some(r) => if r.metric.Some? then r.metric.value else ""
    case None => ""
  }

  /**
   * `logs_day` after its queries (backend.py:408-427): the reported devices
   * in sorted order, each with its counts, their total and its metric.
   */
  method LogsDay(names: seq<string>, stats: seq<StatRow>, metrics: seq<MetricRow>, device: Option<string>)
    returns (out: seq<LogRow>)
    ensures StrictlySorted(seq(|out|, i requires 0 <= i < |out| => out[i].deviceId))
    ensures forall d :: d in AllDevices(names, stats, metrics, device) <==> exists i :: 0 <= i < |out| && out[i].deviceId == d
    ensures forall i :: 0 <= i < |out| ==>
              var dev := out[i].deviceId;
              var c := DeviceCounts(stats, dev);
              && out[i].name == dev
              && out[i].pass == c.pass && out[i].fail == c.fail
              && out[i].total == out[i].pass + out[i].fail
              && out[i].metric == DeviceMetric(metrics, dev)
  {
    var all := AllDevices(names, stats, metrics, device);
    var devs := SortDevices(all);
    out := [];
    for k := 0 to |devs|
      invariant |out| == k
      invariant forall i :: 0 <= i < k ==> out[i].deviceId == devs[i]
      invariant forall i :: 0 <= i < k ==>
                  var dev := out[i].deviceId;
                  var c := DeviceCounts(stats, dev);
                  && out[i].name == dev
                  && out[i].pass == c.pass && out[i].fail == c.fail
                  && out[i].total == out[i].pass + out[i].fail
                  && out[i].metric == DeviceMetric(metrics, dev)
    {
      var dev := devs[k];
      var c := DeviceCounts(stats, dev);
      out := out + [LogRow(dev, dev, c.pass, c.fail, c.pass + c.fail, DeviceMetric(metrics, dev))];
    }
    assert seq(|out|, i requires 0 <= i < |out| => out[i].deviceId) == devs;
  }

  /** With a device filter exactly one row comes back, for that device. */
  lemma FilteredIsSingle(names: seq<string>, stats: seq<StatRow>, metrics: seq<MetricRow>, device: Option<string>, ids: seq<string>)
    requires Given(device)
    requires StrictlySorted(ids)
    requires forall d :: d in AllDevices(names, stats, metrics, device) <==> d in ids
    ensures ids == [device.value]
  {
    SortedUnique(ids, [device.value]);
  }

  /** Without a filter every registered device has a row, even one with no stats that day. */
  lemma RegisteredDevicesListed(names: seq<string>, stats: seq<StatRow>, metrics: seq<MetricRow>, device: Option<string>, n: string)
    requires !Given(device) && n in names
    ensures n in AllDevices(names, stats, metrics, device)
  {
  }

  /** A device with no stats row shows zero passes and fails. */
  lemma NoStatsZero(stats: seq<StatRow>, dev: string)
    requires forall j :: 0 <= j < |stats| ==> stats[j].device != dev
    ensures DeviceCounts(stats, dev) == Counts(0, 0)
  {
  }
}
