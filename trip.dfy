/** The route-time calculation of the dispatch page, as specification
    functions: the cost of one leg, the walk over the route that skips stops
    with a negative stored count, the trip summary, and what is proved about
    them. The loop that computes the same summary is `Session.RouteSession.Evaluate`. */
module Trip {
  import opened Wrappers
  import opened Positions

  /** Where the vehicle is: a line and the one-way distance from the hub. */
  datatype Cursor = Cursor(line: Line, dist: int)

  const AtHub: Cursor := Cursor(Center, 0)

  datatype CalcError = EmptyRoute | ZeroOrders

  /** The stored result; the average is kept in hundredths of a minute. */
  datatype Summary = Summary(totalTime: int, totalOrders: int, averageHundredths: int, path: string)

  /** The separator between path labels: a space, a right arrow, a space. */
  const Arrow: string := " \U{2192} "

  predicate AllKnown(route: seq<string>) {
    forall j :: 0 <= j < |route| ==> route[j] in Table
  }

  function Abs(x: int): int {
    if x < 0 then -x else x
  }

  function StopCursor(key: string): Cursor
    requires key in Table
  {
    Cursor(GetLine(key), OneWay(key))
  }

  /** Minutes to drive from `here` to `next`: straight out from the hub, along
      the same line plus a 10-minute handling charge, or back to the hub and
      out again when the lines differ. */
  function LegCost(here: Cursor, next: Cursor): (r: int)
    ensures here.dist >= 0 && next.dist >= 0 ==> r >= 0
  {
    if here.line == Center then next.dist
    else if here.line == next.line then Abs(here.dist - next.dist) + 10
    else here.dist + next.dist
  }

  /** `ordersByIndex[index] || 0`: a missing count reads as 0. */
  function CountAt(counts: map<int, int>, i: int): int {
    if i in counts then counts[i] else 0
  }

  /** Each stop of the route as the cursor the vehicle has on reaching it. */
  function Cursors(route: seq<string>): (r: seq<Cursor>)
    requires AllKnown(route)
    ensures |r| == |route| && AllNonNegative(r)
  {
    if route == [] then []
    else
      var init := route[..|route| - 1];
      assert AllKnown(init) by {
        assert forall j :: 0 <= j < |init| ==> init[j] == route[j];
      }
      Cursors(init) + [StopCursor(route[|route| - 1])]
  }

  lemma {:induction false} CursorAt(route: seq<string>, j: nat)
    requires AllKnown(route) && j < |route|
    ensures Cursors(route)[j] == StopCursor(route[j])
  {
    var init := route[..|route| - 1];
    if j < |route| - 1 {
      assert AllKnown(init) by {
        assert forall m :: 0 <= m < |init| ==> init[m] == route[m];
      }
      CursorAt(init, j);
    }
  }

  /** The running totals carried by the walk. */
  datatype Tally = Tally(orders: int, time: int, at: Cursor)

  /** One stop of the walk. A negative count returns early: nothing changes. */
  function Visit(t: Tally, next: Cursor, count: int): Tally {
    if count < 0 then t
    else Tally(t.orders + count, t.time + LegCost(t.at, next), next)
  }

  /** The totals after the first `n` stops. */
  function Run(stops: seq<Cursor>, counts: map<int, int>, n: nat): Tally
    requires n <= |stops|
  {
    if n == 0 then Tally(0, 0, AtHub)
    else Visit(Run(stops, counts, n - 1), stops[n - 1], CountAt(counts, n - 1))
  }

  /** Total time: every processed leg, then the drive back to the hub. */
  function TripTime(route: seq<string>, counts: map<int, int>): int
    requires AllKnown(route)
  {
    var t := Run(Cursors(route), counts, |route|);
    t.time + t.at.dist
  }

  function TotalOrders(route: seq<string>, counts: map<int, int>): int
    requires AllKnown(route)
  {
    Run(Cursors(route), counts, |route|).orders
  }

  /** Rounding `100 * t / n` half up to an integer number of hundredths. */
  function RoundHundredths(t: int, n: int): (r: int)
    requires n > 0
    ensures 2 * n * r - n <= 200 * t < 2 * n * r + n
  {
    var q := (200 * t + n) / (2 * n);
    assert 2 * n * q <= 200 * t + n < 2 * n * q + 2 * n by {
      DivBracket(200 * t + n, 2 * n);
    }
    q
  }

  lemma DivBracket(a: int, b: int)
    requires b > 0
    ensures b * (a / b) <= a < b * (a / b) + b
  {
  }

  /** Labels joined by a separator. */
  function Join(parts: seq<string>, sep: string): string {
    if |parts| == 0 then ""
    else if |parts| == 1 then parts[0]
    else parts[0] + sep + Join(parts[1..], sep)
  }

  /** The hub, the route in order, the hub, joined by arrows. */
  function PathString(route: seq<string>): string {
    Join([Hub] + route + [Hub], Arrow)
  }

  /** What the calculate button produces. */
  function Summarize(route: seq<string>, counts: map<int, int>): Result<Summary, CalcError>
    requires AllKnown(route)
  {
    if |route| == 0 then Err(EmptyRoute)
    else
      var n := TotalOrders(route, counts);
      if n == 0 then Err(ZeroOrders)
      else
        TotalOrdersNonNegative(route, counts);
        var time := TripTime(route, counts);
        Ok(Summary(time, n, RoundHundredths(time, n), PathString(route)))
  }

  // ---------------------------------------------------------------------
  // Reference definitions, independent of the walk

  /** The counted orders of the first `n` positions: non-negative counts only. */
  function OrderSum(counts: map<int, int>, n: nat): int {
    if n == 0 then 0
    else OrderSum(counts, n - 1) + (if CountAt(counts, n - 1) < 0 then 0 else CountAt(counts, n - 1))
  }

  /** The stops among the first `n` whose count is not negative, in order. */
  function Kept(stops: seq<Cursor>, counts: map<int, int>, n: nat): (r: seq<Cursor>)
    requires n <= |stops|
    ensures |r| <= n
  {
    if n == 0 then []
    else
      var prev := Kept(stops, counts, n - 1);
      if CountAt(counts, n - 1) < 0 then prev else prev + [stops[n - 1]]
  }

  /** Minutes to visit `stops` in order starting from `here`, then return to the hub. */
  function CostFrom(here: Cursor, stops: seq<Cursor>): int
    decreases stops
  {
    if stops == [] then here.dist
    else LegCost(here, stops[0]) + CostFrom(stops[0], stops[1..])
  }

  /** `sep` before each label. */
  function Trail(labels: seq<string>, sep: string): string {
    if labels == [] then "" else sep + labels[0] + Trail(labels[1..], sep)
  }

  // ---------------------------------------------------------------------
  // Leg cost

  /** From the hub a leg is the next stop's one-way time. */
  lemma LegFromHub(next: Cursor)
    ensures LegCost(AtHub, next) == next.dist
  {
  }

  /** A leg across lines costs exactly as much as driving back to the hub and
      then out to the next stop. */
  lemma LegAcrossLinesViaHub(here: Cursor, next: Cursor)
    requires here.line != Center && here.line != next.line
    ensures LegCost(here, next) == LegCost(here, AtHub) + LegCost(AtHub, next)
  {
  }

  /** Along a line the cost is the distance between the two stops plus 10. */
  lemma LegSameLine(here: Cursor, next: Cursor)
    requires here.line != Center && here.line == next.line
    ensures LegCost(here, next) == Abs(here.dist - next.dist) + 10
    ensures LegCost(here, next) >= 10
  {
  }

  // ---------------------------------------------------------------------
  // The walk

  /** A stop with a negative stored count changes nothing: no orders, no
      time, and the vehicle stays where it was. */
  lemma NegativeCountSkipped(stops: seq<Cursor>, counts: map<int, int>, n: nat)
    requires n < |stops| && CountAt(counts, n) < 0
    ensures Run(stops, counts, n + 1) == Run(stops, counts, n)
  {
  }

  /** A stop with a non-negative count adds its count and the leg to it, and
      the vehicle is then at that stop's line and distance. */
  lemma KeptStopVisited(stops: seq<Cursor>, counts: map<int, int>, n: nat)
    requires n < |stops| && CountAt(counts, n) >= 0
    ensures Run(stops, counts, n + 1).orders == Run(stops, counts, n).orders + CountAt(counts, n)
    ensures Run(stops, counts, n + 1).time == Run(stops, counts, n).time + LegCost(Run(stops, counts, n).at, stops[n])
    ensures Run(stops, counts, n + 1).at == stops[n]
  {
  }

  /** The walk's order total is the sum of the non-negative counts. */
  lemma {:induction false} RunOrders(stops: seq<Cursor>, counts: map<int, int>, n: nat)
    requires n <= |stops|
    ensures Run(stops, counts, n).orders == OrderSum(counts, n)
  {
    if n > 0 {
      RunOrders(stops, counts, n - 1);
    }
  }

  lemma {:induction false} OrderSumNonNegative(counts: map<int, int>, n: nat)
    ensures OrderSum(counts, n) >= 0
  {
    if n > 0 {
      OrderSumNonNegative(counts, n - 1);
    }
  }

  /** The order sum is positive exactly when some position has a positive count. */
  lemma {:induction false} OrderSumPositive(counts: map<int, int>, n: nat)
    ensures OrderSum(counts, n) > 0 <==> exists j :: 0 <= j < n && CountAt(counts, j) > 0
  {
    if n > 0 {
      OrderSumPositive(counts, n - 1);
      OrderSumNonNegative(counts, n - 1);
      if CountAt(counts, n - 1) > 0 {
        assert OrderSum(counts, n) > 0;
      } else if OrderSum(counts, n) > 0 {
        var j :| 0 <= j < n - 1 && CountAt(counts, j) > 0;
      }
    }
  }

  lemma TotalOrdersNonNegative(route: seq<string>, counts: map<int, int>)
    requires AllKnown(route)
    ensures TotalOrders(route, counts) >= 0
  {
    RunOrders(Cursors(route), counts, |route|);
    OrderSumNonNegative(counts, |route|);
  }

  /** `totalOrders` is the sum of the non-negative counts of the route positions. */
  lemma TotalOrdersIsSum(route: seq<string>, counts: map<int, int>)
    requires AllKnown(route)
    ensures TotalOrders(route, counts) == OrderSum(counts, |route|)
    ensures TotalOrders(route, counts) > 0 <==> exists j :: 0 <= j < |route| && CountAt(counts, j) > 0
  {
    RunOrders(Cursors(route), counts, |route|);
    OrderSumPositive(counts, |route|);
  }

  /** Visiting a kept stop and then driving `rest` costs as much as driving
      `[next] + rest` from where the walk was. */
  lemma VisitThenRest(t: Tally, next: Cursor, count: int, rest: seq<Cursor>)
    requires count >= 0
    ensures Visit(t, next, count).time + CostFrom(Visit(t, next, count).at, rest)
         == t.time + CostFrom(t.at, [next] + rest)
  {
    assert ([next] + rest)[1..] == rest;
  }

  /** The time of the walk so far plus the cost of any continuation equals the
      cost of driving the kept stops followed by that continuation. */
  lemma {:induction false} RunMatchesKept(stops: seq<Cursor>, counts: map<int, int>, n: nat, rest: seq<Cursor>)
    requires n <= |stops|
    ensures Run(stops, counts, n).time + CostFrom(Run(stops, counts, n).at, rest)
         == CostFrom(AtHub, Kept(stops, counts, n) + rest)
  {
    var k := Kept(stops, counts, n);
    if n > 0 {
      var t0 := Run(stops, counts, n - 1);
      var k0 := Kept(stops, counts, n - 1);
      if CountAt(counts, n - 1) < 0 {
        RunMatchesKept(stops, counts, n - 1, rest);
      } else {
        assert k + rest == k0 + ([stops[n - 1]] + rest);
        VisitThenRest(t0, stops[n - 1], CountAt(counts, n - 1), rest);
        RunMatchesKept(stops, counts, n - 1, [stops[n - 1]] + rest);
      }
    } else {
      assert k + rest == rest;
    }
  }

  /** A stop whose stored count is negative is skipped entirely: the trip time
      is that of driving only the other stops, in order. */
  lemma TripTimeOfKept(route: seq<string>, counts: map<int, int>)
    requires AllKnown(route)
    ensures TripTime(route, counts) == CostFrom(AtHub, Kept(Cursors(route), counts, |route|))
  {
    var k := Kept(Cursors(route), counts, |route|);
    RunMatchesKept(Cursors(route), counts, |route|, []);
    assert k + [] == k;
  }

  predicate AllNonNegative(stops: seq<Cursor>) {
    forall j :: 0 <= j < |stops| ==> stops[j].dist >= 0
  }

  lemma {:induction false} CostFromNonNegative(here: Cursor, stops: seq<Cursor>)
    requires here.dist >= 0 && AllNonNegative(stops)
    ensures CostFrom(here, stops) >= 0
    decreases stops
  {
    if stops != [] {
      CostFromNonNegative(stops[0], stops[1..]);
    }
  }

  lemma {:induction false} KeptNonNegative(stops: seq<Cursor>, counts: map<int, int>, n: nat)
    requires n <= |stops| && AllNonNegative(stops)
    ensures AllNonNegative(Kept(stops, counts, n))
  {
    if n > 0 {
      KeptNonNegative(stops, counts, n - 1);
    }
  }

  /** The total time is never negative. */
  lemma TripTimeNonNegative(route: seq<string>, counts: map<int, int>)
    requires AllKnown(route)
    ensures TripTime(route, counts) >= 0
  {
    TripTimeOfKept(route, counts);
    KeptNonNegative(Cursors(route), counts, |route|);
    CostFromNonNegative(AtHub, Kept(Cursors(route), counts, |route|));
  }

  /** A one-stop trip takes the stop's round-trip table time, or nothing when
      the stop is skipped. */
  lemma SingleStop(key: string, counts: map<int, int>)
    requires key in Table
    ensures TripTime([key], counts) == if CountAt(counts, 0) < 0 then 0 else Table[key].time
  {
    var c := Cursors([key]);
    assert c[0] == StopCursor(key);
    assert Run(c, counts, 1) == Visit(Tally(0, 0, AtHub), StopCursor(key), CountAt(counts, 0));
  }

  // ---------------------------------------------------------------------
  // Removal

  function RemoveAt<T>(s: seq<T>, i: nat): (r: seq<T>)
    requires i < |s|
    ensures |r| == |s| - 1
    ensures forall j {:trigger r[j]} :: 0 <= j < |r| ==> r[j] == if j < i then s[j] else s[j + 1]
  {
    s[..i] + s[i + 1..]
  }

  /** Removing the stop just appended gives back the route before it. */
  lemma RemoveUndoesAppend<T>(s: seq<T>, x: T)
    ensures RemoveAt(s + [x], |s|) == s
  {
    assert (s + [x])[..|s|] == s;
  }

  /** The old key whose count lands at key `k` when position `i` is removed:
      keys below `i` keep their place, the others come from one above. */
  function SourceKey(i: int, k: int): (r: int)
    ensures r != i
  {
    if k < i then k else k + 1
  }

  /** `shifted` is `counts` re-keyed after removing position `i`: keys below
      `i` keep their count, each key above `i` moves down by one, and the
      count at `i` is dropped. */
  ghost predicate IsShiftDown(counts: map<int, int>, i: int, shifted: map<int, int>) {
    && (forall k :: k in shifted <==> SourceKey(i, k) in counts)
    && (forall k :: k in shifted ==> shifted[k] == counts[SourceKey(i, k)])
  }

  /** The re-keyed map is determined by the old map and the position. */
  lemma ShiftDownUnique(counts: map<int, int>, i: int, a: map<int, int>, b: map<int, int>)
    requires IsShiftDown(counts, i, a) && IsShiftDown(counts, i, b)
    ensures a == b
  {
    assert forall k :: k in a <==> k in b;
    assert forall k :: k in a ==> a[k] == b[k];
  }

  lemma CountAtShiftDown(counts: map<int, int>, i: int, sh: map<int, int>, j: int)
    requires IsShiftDown(counts, i, sh)
    ensures CountAt(sh, j) == CountAt(counts, SourceKey(i, j))
  {
  }

  /** One step of two walks that agree so far, over the same stop with the same count. */
  lemma RunStepAgrees(a: seq<Cursor>, ca: map<int, int>, n: nat, b: seq<Cursor>, cb: map<int, int>, m: nat)
    requires n < |a| && m < |b|
    requires Run(a, ca, n) == Run(b, cb, m)
    requires a[n] == b[m] && CountAt(ca, n) == CountAt(cb, m)
    ensures Run(a, ca, n + 1) == Run(b, cb, m + 1)
  {
  }

  /** The counts `sh` of the shortened route read those of the original route
      one position further on past `i`, and position `i` is marked skipped. */
  ghost predicate Realigned(sh: map<int, int>, i: int, marked: map<int, int>) {
    && CountAt(marked, i) < 0
    && forall j :: CountAt(sh, j) == CountAt(marked, SourceKey(i, j))
  }

  /** Before the removed position the two walks agree step by step. */
  lemma {:induction false} RunBeforeRemoved(stops: seq<Cursor>, marked: map<int, int>, i: nat, sh: map<int, int>, n: nat)
    requires i < |stops| && n <= i && Realigned(sh, i, marked)
    ensures Run(RemoveAt(stops, i), sh, n) == Run(stops, marked, n)
  {
    if n > 0 {
      RunBeforeRemoved(stops, marked, i, sh, n - 1);
      assert CountAt(sh, n - 1) == CountAt(marked, SourceKey(i, n - 1));
      RunStepAgrees(RemoveAt(stops, i), sh, n - 1, stops, marked, n - 1);
    }
  }

  /** Past the removed position the shortened walk is one stop behind the
      original, which stepped over the removed stop without a change. */
  lemma {:induction false} RunAfterRemoved(stops: seq<Cursor>, marked: map<int, int>, i: nat, sh: map<int, int>, n: nat)
    requires i < n < |stops| && Realigned(sh, i, marked)
    ensures Run(RemoveAt(stops, i), sh, n) == Run(stops, marked, n + 1)
  {
    var rem := RemoveAt(stops, i);
    if n - 1 == i {
      RunBeforeRemoved(stops, marked, i, sh, i);
      NegativeCountSkipped(stops, marked, i);
    } else {
      RunAfterRemoved(stops, marked, i, sh, n - 1);
    }
    assert CountAt(sh, n - 1) == CountAt(marked, SourceKey(i, n - 1));
    RunStepAgrees(rem, sh, n - 1, stops, marked, n);
  }

  /** Removing position `i` and re-keying the counts realigns them with the
      old route in which position `i` is marked skipped. */
  lemma ShiftDownRealigns(counts: map<int, int>, i: int, sh: map<int, int>)
    requires IsShiftDown(counts, i, sh)
    ensures Realigned(sh, i, counts[i := -1])
  {
    forall j ensures CountAt(sh, j) == CountAt(counts[i := -1], SourceKey(i, j)) {
      CountAtShiftDown(counts, i, sh, j);
    }
  }

  lemma CursorsRemoveAt(route: seq<string>, i: nat)
    requires AllKnown(route) && i < |route|
    ensures AllKnown(RemoveAt(route, i))
    ensures Cursors(RemoveAt(route, i)) == RemoveAt(Cursors(route), i)
  {
    var rem := RemoveAt(route, i);
    var a := Cursors(rem);
    var b := RemoveAt(Cursors(route), i);
    forall j | 0 <= j < |rem| ensures a[j] == b[j] {
      CursorAt(rem, j);
      CursorAt(route, if j < i then j else j + 1);
    }
  }

  lemma RealignedTrip(route: seq<string>, marked: map<int, int>, i: nat, sh: map<int, int>)
    requires AllKnown(route) && i < |route| && Realigned(sh, i, marked)
    ensures AllKnown(RemoveAt(route, i))
    ensures TripTime(RemoveAt(route, i), sh) == TripTime(route, marked)
    ensures TotalOrders(RemoveAt(route, i), sh) == TotalOrders(route, marked)
  {
    var stops := Cursors(route);
    var n := |route| - 1;
    CursorsRemoveAt(route, i);
    if n <= i {
      RunBeforeRemoved(stops, marked, i, sh, n);
      NegativeCountSkipped(stops, marked, n);
    } else {
      RunAfterRemoved(stops, marked, i, sh, n);
    }
  }

  /** After removal the trip time and order total are those of the old route
      with the removed stop skipped, whatever count it held. */
  lemma RemoveIsSkip(route: seq<string>, counts: map<int, int>, i: nat, sh: map<int, int>)
    requires AllKnown(route) && i < |route| && IsShiftDown(counts, i, sh)
    ensures AllKnown(RemoveAt(route, i))
    ensures TripTime(RemoveAt(route, i), sh) == TripTime(route, counts[i := -1])
    ensures TotalOrders(RemoveAt(route, i), sh) == TotalOrders(route, counts[i := -1])
  {
    ShiftDownRealigns(counts, i, sh);
    RealignedTrip(route, counts[i := -1], i, sh);
  }

  // ---------------------------------------------------------------------
  // Path

  lemma {:induction false} JoinIsTrail(first: string, rest: seq<string>, sep: string)
    ensures Join([first] + rest, sep) == first + Trail(rest, sep)
    decreases rest
  {
    if rest != [] {
      assert ([first] + rest)[1..] == [rest[0]] + rest[1..];
      JoinIsTrail(rest[0], rest[1..], sep);
    }
  }

  lemma {:induction false} TrailAppend(labels: seq<string>, last: string, sep: string)
    ensures Trail(labels + [last], sep) == Trail(labels, sep) + sep + last
  {
    if labels != [] {
      assert (labels + [last])[1..] == labels[1..] + [last];
      TrailAppend(labels[1..], last, sep);
    }
  }

  /** The path is "CENTRO", then an arrow before each stop in route order,
      then an arrow and "CENTRO". */
  lemma PathShape(route: seq<string>)
    ensures PathString(route) == Hub + Trail(route, Arrow) + Arrow + Hub
  {
    assert [Hub] + route + [Hub] == [Hub] + (route + [Hub]);
    JoinIsTrail(Hub, route + [Hub], Arrow);
    TrailAppend(route, Hub, Arrow);
  }

  // ---------------------------------------------------------------------
  // The summary

  /** The calculation fails exactly on an empty route or when no position has a
      positive count; otherwise the summary holds the trip time (never
      negative, equal to driving only the kept stops), the order total, the
      average rounded half up to hundredths and the path. */
  lemma SummarizeSpec(route: seq<string>, counts: map<int, int>)
    requires AllKnown(route)
    ensures |route| == 0 ==> Summarize(route, counts) == Err(EmptyRoute)
    ensures |route| > 0 && (forall j :: 0 <= j < |route| ==> CountAt(counts, j) <= 0)
            ==> Summarize(route, counts) == Err(ZeroOrders)
    ensures Summarize(route, counts).Ok?
            <==> |route| > 0 && exists j :: 0 <= j < |route| && CountAt(counts, j) > 0
    ensures Summarize(route, counts).Ok? ==>
              var s := Summarize(route, counts).value;
              && s.totalTime == CostFrom(AtHub, Kept(Cursors(route), counts, |route|))
              && s.totalTime >= 0
              && s.totalOrders == OrderSum(counts, |route|) > 0
              && 2 * s.totalOrders * s.averageHundredths - s.totalOrders <= 200 * s.totalTime
              && 200 * s.totalTime < 2 * s.totalOrders * s.averageHundredths + s.totalOrders
              && s.path == Hub + Trail(route, Arrow) + Arrow + Hub
  {
    TotalOrdersIsSum(route, counts);
    TripTimeOfKept(route, counts);
    TripTimeNonNegative(route, counts);
    PathShape(route);
  }

  // ---------------------------------------------------------------------
  // Worked examples

  lemma PathOfOne(a: string)
    ensures PathString([a]) == Hub + Arrow + a + Arrow + Hub
  {
    PathShape([a]);
    assert Trail([a], Arrow) == Arrow + a by {
      assert [a][1..] == [];
    }
  }

  lemma PathOfTwo(a: string, b: string)
    ensures PathString([a, b]) == Hub + Arrow + a + Arrow + b + Arrow + Hub
  {
    PathShape([a, b]);
    assert Trail([a, b], Arrow) == Arrow + a + (Arrow + b) by {
      assert [a, b][1..] == [b];
      assert [b][1..] == [];
      assert Trail([b], Arrow) == Arrow + b;
    }
  }

  lemma PathOneStop()
    ensures PathString(["K48.11"]) == "CENTRO \U{2192} K48.11 \U{2192} CENTRO"
  {
    PathOfOne("K48.11");
  }

  /** The paths of the two-stop examples, written out. */
  lemma ExamplePaths()
    ensures PathString(["K48.11", "K48.12"]) == "CENTRO \U{2192} K48.11 \U{2192} K48.12 \U{2192} CENTRO"
    ensures PathString(["K48.11", "15.20.1"]) == "CENTRO \U{2192} K48.11 \U{2192} 15.20.1 \U{2192} CENTRO"
  {
    PathOfTwo("K48.11", "K48.12");
    PathOfTwo("K48.11", "15.20.1");
  }

  /** [K48.11] with 5 orders: 30 out, 30 back; 60 minutes, 12.00 per order. */
  lemma ScenarioOneStop()
    ensures Summarize(["K48.11"], map[0 := 5])
         == Ok(Summary(60, 5, 1200, "CENTRO \U{2192} K48.11 \U{2192} CENTRO"))
  {
    var route := ["K48.11"];
    var c := map[0 := 5];
    var east := Cursor(Este, 30);
    assert StopCursor("K48.11") == east;
    CursorAt(route, 0);
    assert Run(Cursors(route), c, 1) == Tally(5, 30, east);
    assert TripTime(route, c) == 60;
    assert RoundHundredths(60, 5) == 1200;
    PathOneStop();
  }

  /** [K48.11, K48.12] with 2 and 3 orders: 30 + (10 + 10) + 20 = 70, 14.00. */
  lemma ScenarioSameLine()
    ensures Summarize(["K48.11", "K48.12"], map[0 := 2, 1 := 3])
         == Ok(Summary(70, 5, 1400, "CENTRO \U{2192} K48.11 \U{2192} K48.12 \U{2192} CENTRO"))
  {
    var route := ["K48.11", "K48.12"];
    var c := map[0 := 2, 1 := 3];
    var first := Cursor(Este, 30);
    var second := Cursor(Este, 20);
    assert StopCursor("K48.11") == first;
    assert StopCursor("K48.12") == second;
    CursorAt(route, 0);
    CursorAt(route, 1);
    var stops := Cursors(route);
    assert Run(stops, c, 1) == Tally(2, 30, first);
    assert Run(stops, c, 2) == Tally(5, 50, second);
    assert TripTime(route, c) == 70;
    assert RoundHundredths(70, 5) == 1400;
    ExamplePaths();
  }

  /** [K48.11, 15.20.1] with 1 order each: 30 + (30 + 30) + 30 = 120, 60.00. */
  lemma ScenarioCrossLine()
    ensures Summarize(["K48.11", "15.20.1"], map[0 := 1, 1 := 1])
         == Ok(Summary(120, 2, 6000, "CENTRO \U{2192} K48.11 \U{2192} 15.20.1 \U{2192} CENTRO"))
  {
    var route := ["K48.11", "15.20.1"];
    var c := map[0 := 1, 1 := 1];
    var first := Cursor(Este, 30);
    var second := Cursor(Oeste, 30);
    assert StopCursor("K48.11") == first;
    assert StopCursor("15.20.1") == second;
    CursorAt(route, 0);
    CursorAt(route, 1);
    var stops := Cursors(route);
    assert Run(stops, c, 1) == Tally(1, 30, first);
    assert Run(stops, c, 2) == Tally(2, 90, second);
    assert TripTime(route, c) == 120;
    assert RoundHundredths(120, 2) == 6000;
    ExamplePaths();
  }

  /** A negative count skips the stop: [K48.11, 15.20.1] with -1 and 1 orders
      drives only to 15.20.1 (60 minutes, 1 order), while the path still
      lists both stops. */
  lemma ScenarioNegativeSkipped()
    ensures Summarize(["K48.11", "15.20.1"], map[0 := -1, 1 := 1])
         == Ok(Summary(60, 1, 6000, "CENTRO \U{2192} K48.11 \U{2192} 15.20.1 \U{2192} CENTRO"))
  {
    var route := ["K48.11", "15.20.1"];
    var c := map[0 := -1, 1 := 1];
    var second := Cursor(Oeste, 30);
    assert StopCursor("15.20.1") == second;
    CursorAt(route, 1);
    var stops := Cursors(route);
    assert Run(stops, c, 1) == Tally(0, 0, AtHub);
    assert Run(stops, c, 2) == Tally(1, 30, second);
    assert TripTime(route, c) == 60;
    assert RoundHundredths(60, 1) == 6000;
    ExamplePaths();
  }

  /** An exact half-hundredth rounds up: 230 minutes over 400 orders is
      0.575 per order, kept as 58 hundredths. */
  lemma HalfHundredthRoundsUp()
    ensures RoundHundredths(230, 400) == 58
  {
  }

  /** Only zero counts: time is spent but the calculation fails. */
  lemma ScenarioZeroOrders()
    ensures TripTime(["K48.11"], map[0 := 0]) == 60
    ensures Summarize(["K48.11"], map[0 := 0]) == Err(ZeroOrders)
  {
    var route := ["K48.11"];
    var c := map[0 := 0];
    assert StopCursor("K48.11") == Cursor(Este, 30);
    CursorAt(route, 0);
    assert Run(Cursors(route), c, 1) == Tally(0, 30, Cursor(Este, 30));
  }
}
