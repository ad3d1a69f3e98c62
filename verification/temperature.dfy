/**
 The CPU temperature lookup of the dashboard window (`get_temp`).
 The sensor table is consulted under a fixed label preference; every exception raised
 inside the lookup, including indexing an empty reading list, is folded into "N/A".
 */
module Temperature {
  import opened Wrappers
  import opened Readings

  /** The only sensor argument for which a lookup is attempted. */
  const CpuSensor: string := "cpu"

  /** The label tried first, then the label tried when the first is absent. */
  const PrimaryLabel: string := "coretemp"
  const FallbackLabel: string := "cpu_thermal"

  /** The labels in the order the lookup prefers them. */
  const LabelPreference: seq<string> := [PrimaryLabel, FallbackLabel]

  /** How control leaves the `try` block of the lookup. */
  datatype Exit = Return(temp: real) | FallThrough | Raise

  /** `readings[0].current`, which raises `IndexError` on an empty list. */
  function IndexFirst(readings: seq<TempReading>): Exit {
    if |readings| == 0 then Raise else Return(readings[0].current)
  }

  /** The `try` block: query the sensors, then test the primary and the fallback label in turn. */
  function TryBlock(sensors: Call<SensorTable>): Exit {
    match sensors
    case Raises => Raise
    case Returns(table) =>
      if PrimaryLabel in table then IndexFirst(table[PrimaryLabel])
      else if FallbackLabel in table then IndexFirst(table[FallbackLabel])
      else FallThrough
  }

  /**
   The lookup as written: a temperature only for the "cpu" argument and only when the
   `try` block returns one; a fall-through or a swallowed exception gives "N/A".
   */
  function GetTemp(sensor: string, sensors: Call<SensorTable>): (r: Option<real>)
    ensures sensor != CpuSensor ==> r == None
    ensures sensors.Raises? ==> r == None
    ensures r.Some? ==>
      exists i :: 0 <= i < |LabelPreference| && LabelPreference[i] in sensors.value
        && |sensors.value[LabelPreference[i]]| > 0
        && r.value == sensors.value[LabelPreference[i]][0].current
  {
    if sensor == CpuSensor then
      match TryBlock(sensors)
      case Return(t) =>
        assert LabelPreference[0] == PrimaryLabel && LabelPreference[1] == FallbackLabel;
        Some(t)
      case _ => None
    else
      None
  }

  /** The label the lookup consults: the first of `labels` that is present in `table`. */
  function Consulted(labels: seq<string>, table: SensorTable): (l: Option<string>)
    ensures l.None? <==> forall i :: 0 <= i < |labels| ==> labels[i] !in table
    ensures l.Some? ==>
      exists i :: 0 <= i < |labels| && labels[i] == l.value && labels[i] in table
        && forall j :: 0 <= j < i ==> labels[j] !in table
  {
    if |labels| == 0 then None
    else if labels[0] in table then Some(labels[0])
    else
      var rest := Consulted(labels[1..], table);
      assert forall i :: 1 <= i < |labels| ==> labels[i] == labels[1..][i - 1];
      rest
  }

  /**
   The declarative reading of the lookup on a table that was obtained: the consulted
   label exists and its first reading is `t`.
   */
  ghost predicate Reports(table: SensorTable, t: real) {
    var l := Consulted(LabelPreference, table);
    l.Some? && |table[l.value]| > 0 && table[l.value][0].current == t
  }

  /** The lookup returns `t` exactly when the label preference designates a first reading `t`. */
  lemma GetTempMeansReports(table: SensorTable, t: real)
    ensures GetTemp(CpuSensor, Returns(table)) == Some(t) <==> Reports(table, t)
  {
  }

  /** The lookup is "N/A" exactly when the label preference designates no first reading. */
  lemma GetTempNotAvailable(table: SensorTable)
    ensures GetTemp(CpuSensor, Returns(table)) == None <==> forall t :: !Reports(table, t)
  {
    var r := GetTemp(CpuSensor, Returns(table));
    if r.Some? {
      GetTempMeansReports(table, r.value);
    } else {
      forall t ensures !Reports(table, t) {
        GetTempMeansReports(table, t);
      }
    }
  }

  /** A non-empty primary list wins, whatever the fallback label holds. */
  lemma PrimaryWins(table: SensorTable)
    requires PrimaryLabel in table && |table[PrimaryLabel]| > 0
    ensures GetTemp(CpuSensor, Returns(table)) == Some(table[PrimaryLabel][0].current)
  {
  }

  /** Without the primary label, a non-empty fallback list gives its first reading. */
  lemma FallbackUsed(table: SensorTable)
    requires PrimaryLabel !in table
    requires FallbackLabel in table && |table[FallbackLabel]| > 0
    ensures GetTemp(CpuSensor, Returns(table)) == Some(table[FallbackLabel][0].current)
  {
  }

  /** Neither label present: the `try` block falls through and the result is "N/A". */
  lemma NeitherLabel(table: SensorTable)
    requires PrimaryLabel !in table && FallbackLabel !in table
    ensures GetTemp(CpuSensor, Returns(table)) == None
  {
  }

  /**
   An empty primary list raises inside the `try` block; the exception is swallowed and the
   fallback label is never consulted, even when it holds readings.
   */
  lemma EmptyPrimaryNoFallback(table: SensorTable)
    requires PrimaryLabel in table && |table[PrimaryLabel]| == 0
    ensures GetTemp(CpuSensor, Returns(table)) == None
  {
  }

  /** An empty fallback list, with the primary label absent, also ends in "N/A". */
  lemma EmptyFallback(table: SensorTable)
    requires PrimaryLabel !in table
    requires FallbackLabel in table && |table[FallbackLabel]| == 0
    ensures GetTemp(CpuSensor, Returns(table)) == None
  {
  }

  /** Any other sensor argument is "N/A" without regard to what the sensor query yields. */
  lemma OtherSensorIgnoresTable(sensor: string, a: Call<SensorTable>, b: Call<SensorTable>)
    requires sensor != CpuSensor
    ensures GetTemp(sensor, a) == GetTemp(sensor, b) == None
  {
  }
}
