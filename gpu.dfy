/**
 * The accelerator collector (`nvidiaCollector.Update`): the query tool's
 * comma-separated output, already split into records by the CSV reader,
 * turned into one device-count sample and one info sample per numeric cell.
 */
module Gpu {
  import opened Wrappers
  import opened Metrics

  /**
   * What running `nvidia-smi --query-gpu=... --format=csv,noheader,nounits`
   * and reading its output as CSV gives: the tool failed, the CSV reader
   * failed, or the records.
   */
  datatype Query = ToolFailed(toolError: string) | CsvFailed(csvError: string) | Records(rows: seq<seq<string>>)

  /** The `names` table: the metric name of column j + 1 of a record. */
  const Names: seq<string> :=
    ["name", "temperature.gpu", "utilization.gpu", "utilization.memory", "memory.total", "memory.free", "memory.used"]

  /** `prometheus.BuildFQName("nvidia", "gpu", "num_devices")`. */
  const NumDevicesFamily := "nvidia_gpu_num_devices"

  /** `prometheus.BuildFQName("nvidia", "gpu", "info")`. */
  const InfoFamily := "nvidia_gpu_info"

  /**
   * Every record has the index column and at most one cell per entry of
   * `names`; anything else makes the source index out of range.
   */
  ghost predicate WellShaped(rows: seq<seq<string>>)
  {
    forall i :: 0 <= i < |rows| ==> 1 <= |rows[i]| <= |Names| + 1
  }

  function CountSample(count: nat): Sample
  {
    Sample(NumDevicesFamily, [], count as real, Counter)
  }

  function InfoSample(gpuNum: string, name: string, v: real): Sample
  {
    Sample(InfoFamily, [gpuNum, name], v, Gauge)
  }

  /** `updateMetrics`: a sample when the value parses as a number, nothing otherwise. */
  function UpdateMetrics(gpuNum: string, name: string, value: string, parse: string -> Option<real>): (r: Option<Sample>)
    ensures r.Some? <==> parse(value).Some?
    ensures r.Some? ==> r.value.labels == [gpuNum, name] && Some(r.value.value) == parse(value)
    ensures r.Some? ==> r.value.family == InfoFamily && r.value.kind == Gauge
  {
    match parse(value)
    case None => None
    case Some(v) => Some(InfoSample(gpuNum, name, v))
  }

  /** What the inner loop sends for the first n cells after the index column of one record. */
  function CellSamples(gpuNum: string, cells: seq<string>, n: nat, parse: string -> Option<real>): seq<Sample>
    requires n <= |cells| <= |Names|
  {
    if n == 0 then []
    else
      CellSamples(gpuNum, cells, n - 1, parse) +
        match UpdateMetrics(gpuNum, Names[n - 1], cells[n - 1], parse)
        case None => []
        case Some(s) => [s]
  }

  /** What the outer loop sends for record i: labelled with the position i, not with the index column. */
  function RowSamples(i: nat, row: seq<string>, parse: string -> Option<real>): seq<Sample>
    requires 1 <= |row| <= |Names| + 1
  {
    CellSamples(Decimal(i), row[1..], |row| - 1, parse)
  }

  /** What the outer loop sends for the first n records, record after record. */
  function RecordSamples(rows: seq<seq<string>>, n: nat, parse: string -> Option<real>): seq<Sample>
    requires n <= |rows| && WellShaped(rows)
  {
    if n == 0 then []
    else RecordSamples(rows, n - 1, parse) + RowSamples(n - 1, rows[n - 1], parse)
  }

  /** Everything `Update` sends for a successful query: the device count, then every record's cells. */
  function GpuSamples(rows: seq<seq<string>>, parse: string -> Option<real>): seq<Sample>
    requires WellShaped(rows)
  {
    [CountSample(|rows|)] + RecordSamples(rows, |rows|, parse)
  }

  /** The positions among the first n cells that parse as numbers. */
  function Parseable(cells: seq<string>, n: nat, parse: string -> Option<real>): set<nat>
    requires n <= |cells|
  {
    set j: nat | j < n && parse(cells[j]).Some?
  }

  /** One sample per parseable cell: a cell that does not parse is skipped and the others still count. */
  lemma {:induction false} CellSampleCount(gpuNum: string, cells: seq<string>, n: nat, parse: string -> Option<real>)
    requires n <= |cells| <= |Names|
    ensures |CellSamples(gpuNum, cells, n, parse)| == |Parseable(cells, n, parse)|
  {
    if n > 0 {
      CellSampleCount(gpuNum, cells, n - 1, parse);
      var before := Parseable(cells, n - 1, parse);
      if parse(cells[n - 1]).Some? {
        assert Parseable(cells, n, parse) == before + {n - 1};
      } else {
        assert Parseable(cells, n, parse) == before;
      }
    }
  }

  /**
   * The samples of a record's first n cells are exactly those of its parseable
   * cells: cell j is labelled `names[j]` and carries the parsed value.
   */
  lemma {:induction false} CellSamplesExactly(gpuNum: string, cells: seq<string>, n: nat, parse: string -> Option<real>, s: Sample)
    requires n <= |cells| <= |Names|
    ensures s in CellSamples(gpuNum, cells, n, parse) <==>
      exists j :: 0 <= j < n && parse(cells[j]).Some? && s == InfoSample(gpuNum, Names[j], parse(cells[j]).value)
  {
    if n > 0 {
      CellSamplesExactly(gpuNum, cells, n - 1, parse, s);
    }
  }

  /** Every sample of record i is labelled with the decimal position i and the name of a parseable column from 1 on. */
  lemma RowSamplesExactly(i: nat, row: seq<string>, parse: string -> Option<real>, s: Sample)
    requires 1 <= |row| <= |Names| + 1
    ensures s in RowSamples(i, row, parse) <==>
      exists j :: 1 <= j < |row| && parse(row[j]).Some? && s == InfoSample(Decimal(i), Names[j - 1], parse(row[j]).value)
  {
    var cells := row[1..];
    CellSamplesExactly(Decimal(i), cells, |cells|, parse, s);
    if s in RowSamples(i, row, parse) {
      var k :| 0 <= k < |cells| && parse(cells[k]).Some? && s == InfoSample(Decimal(i), Names[k], parse(cells[k]).value);
      assert row[k + 1] == cells[k];
    }
    if exists j :: 1 <= j < |row| && parse(row[j]).Some? && s == InfoSample(Decimal(i), Names[j - 1], parse(row[j]).value) {
      var j :| 1 <= j < |row| && parse(row[j]).Some? && s == InfoSample(Decimal(i), Names[j - 1], parse(row[j]).value);
      assert cells[j - 1] == row[j];
    }
  }

  /** The number of samples of record i is the number of parseable cells after its index column. */
  lemma RowSampleCount(i: nat, row: seq<string>, parse: string -> Option<real>)
    requires 1 <= |row| <= |Names| + 1
    ensures |RowSamples(i, row, parse)| == |Parseable(row[1..], |row| - 1, parse)|
  {
    CellSampleCount(Decimal(i), row[1..], |row| - 1, parse);
  }

  /** Across the first n records: a sample is sent iff it is a sample of one of them. */
  lemma {:induction false} RecordSamplesExactly(rows: seq<seq<string>>, n: nat, parse: string -> Option<real>, s: Sample)
    requires n <= |rows| && WellShaped(rows)
    ensures s in RecordSamples(rows, n, parse) <==>
      exists i :: 0 <= i < n && s in RowSamples(i, rows[i], parse)
  {
    if n > 0 {
      RecordSamplesExactly(rows, n - 1, parse, s);
    }
  }

  /** The first sample is the device count: a counter equal to the number of records. */
  lemma GpuSamplesStartWithCount(rows: seq<seq<string>>, parse: string -> Option<real>)
    requires WellShaped(rows)
    ensures |GpuSamples(rows, parse)| >= 1
    ensures GpuSamples(rows, parse)[0].family == NumDevicesFamily
    ensures GpuSamples(rows, parse)[0].value == |rows| as real && GpuSamples(rows, parse)[0].kind == Counter
    ensures forall k :: 1 <= k < |GpuSamples(rows, parse)| ==> GpuSamples(rows, parse)[k].family == InfoFamily
  {
    forall k | 1 <= k < |GpuSamples(rows, parse)| ensures GpuSamples(rows, parse)[k].family == InfoFamily {
      var s := GpuSamples(rows, parse)[k];
      assert s in RecordSamples(rows, |rows|, parse);
      RecordSamplesExactly(rows, |rows|, parse, s);
      var i :| 0 <= i < |rows| && s in RowSamples(i, rows[i], parse);
      RowSamplesExactly(i, rows[i], parse, s);
    }
  }

  /** `Update`: nothing when disabled; a wrapped error and no samples on a failed query; otherwise the count, then the cells. */
  method Update(enableGpuInfo: bool, query: Query, parse: string -> Option<real>)
    returns (out: seq<Sample>, err: Option<string>)
    requires query.Records? ==> WellShaped(query.rows)
    ensures !enableGpuInfo ==> out == [] && err == None
    ensures enableGpuInfo && query.ToolFailed? ==>
      out == [] && err == Some("couldn't get gpu info: " + query.toolError)
    ensures enableGpuInfo && query.CsvFailed? ==>
      out == [] && err == Some("couldn't parse gpu info: " + query.csvError)
    ensures enableGpuInfo && query.Records? ==> err == None && out == GpuSamples(query.rows, parse)
  {
    out, err := [], None;
    if enableGpuInfo {
      if query.ToolFailed? {
        return [], Some("couldn't get gpu info: " + query.toolError);
      }
      if query.CsvFailed? {
        return [], Some("couldn't parse gpu info: " + query.csvError);
      }
      out := EmitRecords(query.rows, parse);
    }
  }

  /** The sends of `Update` after a successful query: the device count, then the nested record and cell loops. */
  method EmitRecords(records: seq<seq<string>>, parse: string -> Option<real>) returns (out: seq<Sample>)
    requires WellShaped(records)
    ensures out == GpuSamples(records, parse)
  {
    var count := |records|;
    out := [CountSample(count)];
    for i := 0 to |records|
      invariant out == [CountSample(count)] + RecordSamples(records, i, parse)
    {
      var gpuNum := Decimal(i);
      var cells := records[i][1..];
      ghost var before := out;
      for j := 0 to |cells|
        invariant out == before + CellSamples(gpuNum, cells, j, parse)
      {
        var metric := UpdateMetrics(gpuNum, Names[j], cells[j], parse);
        if metric.Some? {
          out := out + [metric.value];
        }
      }
      assert out == [CountSample(count)] + (RecordSamples(records, i, parse) + RowSamples(i, records[i], parse));
    }
  }
}
