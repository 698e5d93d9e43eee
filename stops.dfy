/** The per-row mapping of `parseCSV`: each parsed row of the stop file
    becomes one stop, in file order. Rows are the objects the CSV parser
    emits with `columns: true`: a map from column header to cell text. */
module StopCatalog {
  import opened Common

  /** One parsed CSV row, keyed by column header. */
  type Row = map<string, string>

  /** One stop as pushed to the viewers. */
  datatype StopRecord = StopRecord(name: string, latitude: Number, longitude: Number)

  /** `row.<column>`: the cell text, or absent when the file has no such column. */
  function Cell(row: Row, column: string): Option<string>
  {
    if column in row then Some(row[column]) else None
  }

  /** The object pushed for one row. `parseFloat` is JavaScript's number
      parser applied to a cell, whose text may be absent. */
  function StopOf(row: Row, parseFloat: Option<string> -> Number): (s: StopRecord)
    ensures "stop_name" in row && row["stop_name"] != "" ==> s.name == row["stop_name"]
    ensures "stop_name" !in row || row["stop_name"] == "" ==> s.name == "Unknown Stop"
    ensures s.name != ""
    ensures s.latitude == parseFloat(Cell(row, "stop_lat"))
    ensures s.longitude == parseFloat(Cell(row, "stop_lon"))
  {
    StopRecord(OrDefault(Cell(row, "stop_name"), "Unknown Stop"),
               parseFloat(Cell(row, "stop_lat")),
               parseFloat(Cell(row, "stop_lon")))
  }

  /** The `'data'` handler run over the rows in the order the parser emits
      them, pushing one stop per row onto the local `stops` array. */
  method CollectStops(rows: seq<Row>, parseFloat: Option<string> -> Number) returns (stops: seq<StopRecord>)
    ensures |stops| == |rows|
    ensures forall i :: 0 <= i < |rows| ==> stops[i] == StopOf(rows[i], parseFloat)
  {
    stops := [];
    var n := 0;
    while n < |rows|
      invariant n <= |rows|
      invariant |stops| == n
      invariant forall i :: 0 <= i < n ==> stops[i] == StopOf(rows[i], parseFloat)
    {
      stops := stops + [StopOf(rows[n], parseFloat)];
      n := n + 1;
    }
  }

  /** The two-row example: the stops come out in file order with their names. */
  method TwoGates(parseFloat: Option<string> -> Number) returns (stops: seq<StopRecord>)
    ensures |stops| == 2
    ensures stops[0].name == "Gate 1" && stops[1].name == "Gate 2"
    ensures stops[0].latitude == parseFloat(Some("28.60")) && stops[0].longitude == parseFloat(Some("77.20"))
    ensures stops[1].latitude == parseFloat(Some("28.61")) && stops[1].longitude == parseFloat(Some("77.21"))
  {
    var first := map["stop_name" := "Gate 1", "stop_lat" := "28.60", "stop_lon" := "77.20"];
    var second := map["stop_name" := "Gate 2", "stop_lat" := "28.61", "stop_lon" := "77.21"];
    stops := CollectStops([first, second], parseFloat);
  }
}
