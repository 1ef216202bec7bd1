/** The fixed position table of the dispatch page: every stop code with its
    round-trip time from the hub (in minutes) and the line it lies on. */
module Positions {

  /** The four directional clusters; `Center` is the hub itself. */
  datatype Line = Este | Oeste | Sur | Center

  /** One table entry: the round-trip time from the hub and the line. */
  datatype PositionData = PositionData(time: int, line: Line)

  /** The hub's code, also used as the first and last label of a path. */
  const Hub: string := "CENTRO"

  const Table: map<string, PositionData> := map[
    "CENTRO"  := PositionData(0, Center),
    "K48.11"  := PositionData(60, Este),
    "K48.12"  := PositionData(40, Este),
    "15.20A"  := PositionData(60, Sur),
    "15.20.1" := PositionData(60, Oeste),
    "15.20.2" := PositionData(80, Oeste),
    "15.20.3" := PositionData(120, Oeste),
    "15.20.4" := PositionData(140, Oeste)
  ]

  /** The eight codes of the table, listed once. */
  lemma TableKeys(key: string)
    requires key in Table
    ensures key == "CENTRO" || key == "K48.11" || key == "K48.12" || key == "15.20A"
         || key == "15.20.1" || key == "15.20.2" || key == "15.20.3" || key == "15.20.4"
  {
  }

  /** One-way time from the hub: half the round trip. Every round trip in the
      table is even, so the halving is exact. */
  function OneWay(key: string): (r: int)
    requires key in Table
    ensures 2 * r == Table[key].time
    ensures r >= 0
    ensures r == 0 <==> key == Hub
  {
    TableKeys(key);
    Table[key].time / 2
  }

  /** The line of a stop; only the hub lies on the `Center` line. */
  function GetLine(key: string): (r: Line)
    requires key in Table
    ensures r == Table[key].line
    ensures r == Center <==> key == Hub
  {
    TableKeys(key);
    Table[key].line
  }
}
