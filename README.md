# Route-time calculator

A Dafny model of the calculator page of a delivery-route planner. The page
keeps three pieces of state:

- an ordered route of stop codes picked from a fixed table;
- a map from route position to the number of orders typed for that stop;
- the last trip summary, if there is one.

Pressing "calculate" walks the route from the hub ("CENTRO"). For each stop it
adds the stop's orders and the time of one leg:

- out from the hub, the stop's one-way time;
- along the same line, the distance between the two stops plus 10;
- across lines, back to the hub and out again.

It then adds the drive back to the hub. It reports the total time, the total
orders, the minutes per order rounded to hundredths, and the path.

Modules:

- `Wrappers`: `Option` and `Result`.
- `Positions`: the stop table (`Table`), the one-way time (`OneWay`) and the line (`GetLine`).
- `OrderText`: the page's `parseInt(count) || 0`, as `OrderValue`.
- `Trip`: the pure definitions.
  - `LegCost`, the single leg.
  - `Run`, the walk over a prefix of the route. A stop is skipped when its stored count is negative.
  - `TripTime` and `TotalOrders`.
  - `RoundHundredths`, which rounds half up to exact integer hundredths.
  - `PathString`.
  - `Summarize`, the whole calculation as a `Result`, with the errors `EmptyRoute` and `ZeroOrders`.
  - Independent reference definitions, each tied back to the walk by lemmas:
    - `Kept`, the stops actually driven;
    - `CostFrom`, the cost of driving a list of stops;
    - `OrderSum`, the sum of the non-negative counts;
    - `Trail`, the path written out;
    - `IsShiftDown`, the re-keyed count map after a removal.
- `Session`: the page state as the class `RouteSession`, with fields `route`, `ordersByIndex` and `result`. Each handler is a method.
  - `Evaluate` is the page's calculation loop, proved to compute `Summarize`.
  - `Calculate` stores its summary on success.
  - `Reindex` is the removal handler's loop that rebuilds the count map. It is proved to produce `IsShiftDown`.

Two behaviours of `client/src/pages/home.tsx` worth knowing, both followed by the model:

- A negative stored count skips the whole stop (line 91 returns from the loop callback). The stop adds no orders and no travel time, and the current line and distance stay where they were.
- Order text is not clamped (line 68): `"-5"` is stored as -5, so negative counts can be stored.

The average is the integer `r` of hundredths with
`2·N·r − N ≤ 200·T < 2·N·r + N`, that is `floor((200·T + N) / (2·N))`.
Here T is the total time and N the total orders.

## Model

| member | source | states |
|---|---|---|
| Positions.OneWay | client/src/pages/home.tsx:18-30 | The one-way time is half the table's round-trip time: never negative, and zero exactly for the hub "CENTRO". |
| Positions.GetLine | client/src/pages/home.tsx:31 | The line is the table's line for the code, and only the hub is on the CENTER line. |
| Trip.LegCost | client/src/pages/home.tsx:97-106 | A leg between two stops at non-negative distances never costs a negative time. |
| Trip.LegFromHub | client/src/pages/home.tsx:97-99 | Leaving the hub costs the next stop's one-way time. |
| Trip.LegSameLine | client/src/pages/home.tsx:100-102 | Along one line a leg costs the absolute distance difference plus 10, so at least 10. |
| Trip.LegAcrossLinesViaHub | client/src/pages/home.tsx:103-106 | A leg across lines costs the same as driving back to the hub and then out to the next stop. |
| Trip.KeptStopVisited | client/src/pages/home.tsx:92-109 | A stop with a non-negative count adds its count and its leg, and afterwards the current line and distance are that stop's. |
| Trip.NegativeCountSkipped | client/src/pages/home.tsx:90-91 | A stop with a negative stored count leaves orders, time and position unchanged. |
| Trip.CursorAt | client/src/pages/home.tsx:94-95 | The stop data the walk uses at position j is the table line and one-way time of `route[j]`. |
| Trip.RunOrders | client/src/pages/home.tsx:90-92 | The orders counted over any prefix are the sum of the non-negative counts of that prefix. A missing count counts as 0. |
| Trip.TotalOrdersIsSum | client/src/pages/home.tsx:90-92 | Total orders equal the sum of the non-negative counts of the route positions. They are positive exactly when some position has a positive count. |
| Trip.TotalOrdersNonNegative | client/src/pages/home.tsx:90-92 | Total orders are never negative. |
| Trip.TripTimeOfKept | client/src/pages/home.tsx:89-113 | The total time equals the cost of driving from the hub through the stops with non-negative counts, in route order, and back. |
| Trip.RunMatchesKept | client/src/pages/home.tsx:89-110 | After any prefix, the time so far plus any continuation equals the cost of driving the kept stops of that prefix followed by the continuation. |
| Trip.CostFromNonNegative | client/src/pages/home.tsx:97-113 | Driving any list of stops at non-negative distances takes non-negative time. |
| Trip.TripTimeNonNegative | client/src/pages/home.tsx:89-113 | The total time is never negative. |
| Trip.SingleStop | client/src/pages/home.tsx:89-113 | A one-stop trip takes that stop's round-trip table time, or 0 when the stop is skipped. |
| Trip.RoundHundredths | client/src/pages/home.tsx:124 | The average is T/N rounded half up to hundredths: `2·N·r − N ≤ 200·T < 2·N·r + N`. |
| Trip.PathShape | client/src/pages/home.tsx:130 | The path is "CENTRO", then " → " and each stop in route order, then " → CENTRO". |
| Trip.Summarize | client/src/pages/home.tsx:73-131 | The calculation as a value: `EmptyRoute`, `ZeroOrders`, or the summary. Its contract is stated by `Trip.SummarizeSpec`. |
| Trip.Run | client/src/pages/home.tsx:89-110 | The loop over a route prefix, with `Trip.Visit` as the callback body (lines 90-109). Its contract is stated by `Trip.RunOrders`, `Trip.KeptStopVisited`, `Trip.NegativeCountSkipped` and `Trip.RunMatchesKept`. |
| Trip.PathString | client/src/pages/home.tsx:130 | The joined path. Its contract is stated by `Trip.PathShape`. |
| Trip.SummarizeSpec | client/src/pages/home.tsx:73-131 | An empty route gives `EmptyRoute`. No positive count gives `ZeroOrders`. Success happens exactly when the route is non-empty and some count is positive. On success the summary holds the kept-stop time (≥ 0), the positive order sum, the rounded average and the path. |
| Trip.RemoveAt | client/src/pages/home.tsx:51 | The filtered route is one shorter. Elements before `i` keep their places. Elements after `i` move down by one. |
| Trip.RemoveUndoesAppend | client/src/pages/home.tsx:45-51 | Removing the stop just added gives back the previous route. |
| Trip.SourceKey | client/src/pages/home.tsx:57-61 | The old key feeding a new key is never the removed position. |
| Trip.ShiftDownUnique | client/src/pages/home.tsx:54-62 | The re-keyed count map is determined by the old map and the removed position. |
| Trip.CountAtShiftDown | client/src/pages/home.tsx:54-62 | The count the new map gives a position is the old count at that position, or at the next one from the removed position on. |
| Trip.RemoveIsSkip | client/src/pages/home.tsx:50-65 | After a removal with re-keyed counts, time and orders equal those of the old route with the removed stop skipped. |
| Trip.ScenarioOneStop | client/src/pages/home.tsx:89-131 | `[K48.11]` with 5 orders gives 60 minutes, 5 orders, 12.00 per order. |
| Trip.ScenarioSameLine | client/src/pages/home.tsx:89-131 | `[K48.11, K48.12]` with 2 and 3 orders gives 30 + 20 + 20 = 70 minutes, 14.00 per order. |
| Trip.ScenarioCrossLine | client/src/pages/home.tsx:89-131 | `[K48.11, 15.20.1]` with 1 and 1 orders gives 30 + 60 + 30 = 120 minutes, 60.00 per order. |
| Trip.ScenarioNegativeSkipped | client/src/pages/home.tsx:90-91 | With counts -1 and 1 on `[K48.11, 15.20.1]`, only the second stop is driven: 60 minutes, 1 order. The path still lists both stops. |
| Trip.ScenarioZeroOrders | client/src/pages/home.tsx:115-122 | `[K48.11]` with count 0 builds up 60 minutes and then fails with `ZeroOrders`. |
| Trip.HalfHundredthRoundsUp | client/src/pages/home.tsx:124 | 230 minutes over 400 orders, exactly 0.575 per order, rounds up to 58 hundredths. |
| OrderText.OrderValue | client/src/pages/home.tsx:68 | The parsed count, or 0 when `parseInt` gives NaN. Its contract is stated by `OrderText.ParseSigned`, `OrderText.NoDigitsIsZero` and `OrderText.SpacesIgnored`. |
| OrderText.ParseSigned | client/src/pages/home.tsx:68 | The decimal text of any integer, sign included, followed by a non-digit or nothing, is read back as that integer. |
| OrderText.NoDigitsIsZero | client/src/pages/home.tsx:68 | Text with no digit after the white space and sign stores 0. |
| OrderText.SpacesIgnored | client/src/pages/home.tsx:68 | A leading white-space character (space, tab, line feed, carriage return, vertical tab, form feed) does not change the stored value. |
| OrderText.NegativeKept | client/src/pages/home.tsx:68 | "-5" is stored as -5, not clamped. |
| OrderText.TrailingTextIgnored | client/src/pages/home.tsx:68 | "  12 orders" is stored as 12. |
| OrderText.EmptyIsZero | client/src/pages/home.tsx:68 | Empty text is stored as 0. |
| OrderText.LettersAreZero | client/src/pages/home.tsx:68 | "abc" is stored as 0. |
| OrderText.LoneSignIsZero | client/src/pages/home.tsx:68 | "-" is stored as 0. |
| Session.Reindex | client/src/pages/home.tsx:54-62 | The loop over the count entries builds exactly the shifted map: keys below `i` are kept, keys above move down by one, key `i` is dropped. |
| Session.RouteSession.constructor | client/src/pages/home.tsx:34-41 | The session starts with an empty route, no counts and no summary. |
| Session.RouteSession.AddToRoute | client/src/pages/home.tsx:45-48 | The route gains the stop at its end, the counts are unchanged, and the summary is cleared. |
| Session.RouteSession.RemoveFromRoute | client/src/pages/home.tsx:50-65 | The route loses exactly position `i`. The counts are re-keyed as `IsShiftDown` says. The summary is cleared. |
| Session.RouteSession.UpdateOrderCount | client/src/pages/home.tsx:67-71 | Only key `index` changes, to the parsed value of the text. The route is unchanged. The summary is cleared. |
| Session.RouteSession.Evaluate | client/src/pages/home.tsx:73-131 | The calculation loop returns exactly `Summarize(route, ordersByIndex)`. |
| Session.RouteSession.Calculate | client/src/pages/home.tsx:73-132 | Returns `Summarize` of the state. Route and counts are never changed. On success the summary is stored. On either error the summary stays as it was. |
| Session.RouteSession.Reset | client/src/pages/home.tsx:134-138 | The route and counts are emptied and the summary is cleared. |

## Left out

- React state setters and re-rendering. The state is plain fields updated at once. The closure reads of stale state made possible by batching are not modelled.
- The toast notifications. The two error branches return `Err(EmptyRoute)` or `Err(ZeroOrders)` and leave the state as it was.
- All JSX, styling and icons (the rest of `client/src/pages/home.tsx`). These are presentation only.
- Trip.RoundHundredths: the average is exact integer hundredths, rounded half up. It is not the IEEE floating-point value of `Math.round((totalTime / totalOrders) * 100) / 100`. That value's last bits can differ. At an exact half-hundredth the float product can also land just below the half, so `Math.round` rounds down and the page shows one hundredth less. For T = 230 and N = 400 the page shows 0.57, while `Trip.HalfHundredthRoundsUp` gives 58 hundredths here.
- OrderText.OrderValue: only part of `parseInt` is modelled: the ASCII white space characters (space, tab, line feed, vertical tab, form feed, carriage return), an optional sign and a decimal digit prefix. Not modelled: radix prefixes such as "0x", non-ASCII white space (no-break space, the byte-order mark, U+2028 and U+2029, other Unicode space separators), and the loss of precision above 2^53.
- Session.RouteSession.AddToRoute: requires the stop code to be in the table. The page offers only table codes. The code itself does not check, and an unknown code would fail at lookup time.
- Session.RouteSession.RemoveFromRoute: requires `0 ≤ i < |route|`. The page passes only indices of displayed stops.
