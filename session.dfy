/** The page's session state and its handlers: the ordered route of stop
    codes, the order counts keyed by route position, and the last summary.
    Every handler is a method; the calculation is the page's loop, proved to
    produce `Trip.Summarize`. */
module Session {
  import opened Wrappers
  import opened Positions
  import opened OrderText
  import opened Trip

  /** The removal handler's loop over the count entries: keys below `i` are
      copied, keys above it are copied one lower, key `i` is dropped. */
  method Reindex(counts: map<int, int>, i: int) returns (shifted: map<int, int>)
    ensures IsShiftDown(counts, i, shifted)
  {
    shifted := map[];
    var todo: set<int> := counts.Keys;
    while exists k :: k in todo
      invariant todo <= counts.Keys
      invariant forall k :: k in shifted <==> SourceKey(i, k) in counts && SourceKey(i, k) !in todo
      invariant forall k :: k in shifted ==> shifted[k] == counts[SourceKey(i, k)]
      decreases |todo|
    {
      var key :| key in todo;
      if key < i {
        shifted := shifted[key := counts[key]];
      } else if key > i {
        shifted := shifted[key - 1 := counts[key]];
      }
      todo := todo - {key};
    }
  }

  class RouteSession {
    var route: seq<string>
    var ordersByIndex: map<int, int>
    var result: Option<Summary>

    /** Every stop on the route is a table code: the page only adds codes
        taken from the table. */
    ghost predicate Valid()
      reads this
    {
      AllKnown(route)
    }

    constructor ()
      ensures Valid()
      ensures route == [] && ordersByIndex == map[] && result == None
    {
      route := [];
      ordersByIndex := map[];
      result := None;
    }

    /** Appends a stop; the counts stay, the summary is cleared. */
    method AddToRoute(pos: string)
      requires Valid() && pos in Table
      modifies this
      ensures Valid()
      ensures route == old(route) + [pos]
      ensures ordersByIndex == old(ordersByIndex)
      ensures result == None
    {
      route := route + [pos];
      result := None;
    }

    /** Removes the stop at `indexToRemove` and re-keys the counts so that they
        stay aligned with the shortened route; the summary is cleared. */
    method RemoveFromRoute(indexToRemove: nat)
      requires Valid() && indexToRemove < |route|
      modifies this
      ensures Valid()
      ensures route == RemoveAt(old(route), indexToRemove)
      ensures IsShiftDown(old(ordersByIndex), indexToRemove, ordersByIndex)
      ensures result == None
    {
      ghost var before := route;
      route := RemoveAt(route, indexToRemove);
      assert AllKnown(route) by {
        assert forall j :: 0 <= j < |route| ==> route[j] == before[if j < indexToRemove then j else j + 1];
      }
      var newOrders := Reindex(ordersByIndex, indexToRemove);
      ordersByIndex := newOrders;
      result := None;
    }

    /** Stores the parsed count at `index`, leaving every other key alone;
        the summary is cleared. */
    method UpdateOrderCount(index: int, count: string)
      requires Valid()
      modifies this
      ensures Valid()
      ensures route == old(route)
      ensures ordersByIndex == old(ordersByIndex)[index := OrderValue(count)]
      ensures result == None
    {
      var val := OrderValue(count);
      ordersByIndex := ordersByIndex[index := val];
      result := None;
    }

    /** The calculation loop: walks the route carrying the current line and
        distance, adds each stop's leg and orders, skips a stop whose stored
        count is negative, then adds the return to the hub. */
    method Evaluate() returns (outcome: Result<Summary, CalcError>)
      requires Valid()
      ensures outcome == Summarize(route, ordersByIndex)
    {
      if |route| == 0 {
        return Err(EmptyRoute);
      }
      var totalOrders := 0;
      var totalTime := 0;
      var currentLine := Center;
      var currentDist := 0;
      var index := 0;
      while index < |route|
        invariant 0 <= index <= |route|
        invariant Tally(totalOrders, totalTime, Cursor(currentLine, currentDist))
               == Run(Cursors(route), ordersByIndex, index)
      {
        var pos := route[index];
        var orders := if index in ordersByIndex then ordersByIndex[index] else 0;
        if orders >= 0 {
          totalOrders := totalOrders + orders;
          var nextLine := GetLine(pos);
          var nextDist := OneWay(pos);
          if currentLine == Center {
            totalTime := totalTime + nextDist;
          } else if currentLine == nextLine {
            totalTime := totalTime + Abs(currentDist - nextDist) + 10;
          } else {
            totalTime := totalTime + currentDist + nextDist;
          }
          currentLine := nextLine;
          currentDist := nextDist;
        }
        CursorAt(route, index);
        index := index + 1;
      }
      totalTime := totalTime + currentDist;
      if totalOrders == 0 {
        return Err(ZeroOrders);
      }
      TotalOrdersNonNegative(route, ordersByIndex);
      var average := RoundHundredths(totalTime, totalOrders);
      outcome := Ok(Summary(totalTime, totalOrders, average, PathString(route)));
    }

    /** The calculate button: on success the summary is stored; on either
        error nothing changes. Route and counts are never modified. */
    method Calculate() returns (outcome: Result<Summary, CalcError>)
      requires Valid()
      modifies this`result
      ensures outcome == Summarize(route, ordersByIndex)
      ensures route == old(route) && ordersByIndex == old(ordersByIndex)
      ensures result == if outcome.Ok? then Some(outcome.value) else old(result)
    {
      outcome := Evaluate();
      if outcome.Ok? {
        result := Some(outcome.value);
      }
    }

    /** Empties the route and the counts and clears the summary. */
    method Reset()
      modifies this
      ensures Valid()
      ensures route == [] && ordersByIndex == map[] && result == None
    {
      route := [];
      ordersByIndex := map[];
      result := None;
    }
  }
}
