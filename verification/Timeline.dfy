/**
 * The window queries of utils/grid.py: binary searches over ranges and events kept in order.
 */
module Timeline {

  datatype Range = Range(start: int, end: int)

  predicate Holds(r: Range, key: int) {
    r.start <= key <= r.end
  }

  /** In order, and strictly separated. */
  predicate Separated(ranges: seq<Range>) {
    && (forall i :: 0 <= i < |ranges| ==> ranges[i].start <= ranges[i].end)
    && (forall i, j :: 0 <= i < j < |ranges| ==> ranges[i].end < ranges[j].start)
  }

  predicate Overlaps(r: Range, start: int, end: int) {
    r.start <= end && start <= r.end
  }

  predicate InSomeRange(ranges: seq<Range>, key: int) {
    exists i :: 0 <= i < |ranges| && Holds(ranges[i], key)
  }

  class TimelineDataRange {
    var ranges: seq<Range>

    method Search(key: int) returns (r: int)
      ensures -1 <= r < |ranges|
      ensures r >= 0 ==> Holds(ranges[r], key)
      ensures Separated(ranges) ==> (r >= 0 <==> InSomeRange(ranges, key))
    {
      var l, u := 0, |ranges| - 1;
      while l <= u
        invariant 0 <= l <= |ranges| && -1 <= u < |ranges|
        invariant Separated(ranges) ==> forall i :: 0 <= i < l ==> ranges[i].end < key
        invariant Separated(ranges) ==> forall i :: u < i < |ranges| ==> key < ranges[i].start
        decreases u - l + 1
      {
        var i := (l + u) / 2;
        if key >= ranges[i].start && key <= ranges[i].end {
          return i;
        } else if key < ranges[i].start {
          u := i - 1;
        } else {
          l := i + 1;
        }
      }
      r := -1;
    }

    /** The window is a slice.  On separated ranges, with an endpoint in a range it misses no
        range that overlaps the interval, with both it holds nothing else, and with neither it is
        empty.  An endpoint outside every range leaves its side of the window open. */
    method GetRangesBounds(start: int, end: int) returns (lo: int, hi: int)
      ensures 0 <= lo <= |ranges| && 0 <= hi <= |ranges|
      ensures Separated(ranges) && start <= end ==> lo <= hi
      ensures Separated(ranges) && start <= end && (InSomeRange(ranges, start) || InSomeRange(ranges, end)) ==>
        forall i :: 0 <= i < |ranges| && Overlaps(ranges[i], start, end) ==> lo <= i < hi
      ensures Separated(ranges) && start <= end && InSomeRange(ranges, start) && InSomeRange(ranges, end) ==>
        forall i :: 0 <= i < |ranges| ==> (Overlaps(ranges[i], start, end) <==> lo <= i < hi)
      ensures !InSomeRange(ranges, start) && !InSomeRange(ranges, end) ==> lo == hi == 0
      ensures Separated(ranges) && InSomeRange(ranges, start) ==>
        lo < |ranges| && Holds(ranges[lo], start) && (!InSomeRange(ranges, end) ==> hi == |ranges|)
      ensures Separated(ranges) && InSomeRange(ranges, end) ==>
        hi > 0 && Holds(ranges[hi - 1], end) && (!InSomeRange(ranges, start) ==> lo == 0)
    {
      var s := Search(start);
      var e := Search(end);
      assert Separated(ranges) && start <= end && s >= 0 && e >= 0 ==> s <= e;
      if s == -1 && e == -1 {
        return 0, 0;
      } else if s == -1 {
        return 0, e + 1;
      } else if e == -1 {
        return s, |ranges|;
      } else {
        return s, e + 1;
      }
    }
  }

  predicate Ordered(events: seq<int>) {
    forall i, j :: 0 <= i < j < |events| ==> events[i] <= events[j]
  }

  predicate StrictlyOrdered(events: seq<int>) {
    forall i, j :: 0 <= i < j < |events| ==> events[i] < events[j]
  }

  class TimelineEvent {
    var events: seq<int>

    /** An event at `key`, or the place where one would be inserted. */
    method Search(key: int) returns (r: nat)
      ensures r <= |events|
      ensures Ordered(events) ==>
        || (r < |events| && events[r] == key)
        || ((forall i :: 0 <= i < r ==> events[i] < key) && (forall i :: r <= i < |events| ==> key < events[i]))
    {
      var l, u := 0, |events| - 1;
      while l <= u
        invariant 0 <= l <= |events| && -1 <= u < |events| && l <= u + 1
        invariant Ordered(events) ==> forall i :: 0 <= i < l ==> events[i] < key
        invariant Ordered(events) ==> forall i :: u < i < |events| ==> key < events[i]
        decreases u - l + 1
      {
        var i := (l + u) / 2;
        if key == events[i] {
          return i;
        } else if key < events[i] {
          u := i - 1;
        } else {
          l := i + 1;
        }
      }
      r := l;
    }

    /** The window is a slice.  On events in order it starts at or after `start`, at an event of
        that time if there is one, holds every event strictly between the bounds, and only its
        last event may lie past `end`.  Without simultaneous events it holds exactly the events
        from `start` on whose predecessor lies before `end`. */
    method GetEvents(start: int, end: int) returns (window: seq<int>, ghost s: nat)
      ensures s + |window| <= |events| && window == events[s..s + |window|]
      ensures Ordered(events) && start <= end ==> forall i :: 0 <= i < |window| ==> start <= window[i]
      ensures Ordered(events) && start <= end ==>
        forall i :: 0 <= i < |events| && start < events[i] < end ==> s <= i < s + |window|
      ensures Ordered(events) && start <= end ==> forall i :: 0 <= i < |window| - 1 ==> window[i] <= end
      ensures Ordered(events) && start < end && start in events ==> window != [] && window[0] == start
      ensures Ordered(events) && start < end && end in events ==> end in window
      ensures StrictlyOrdered(events) && start <= end ==>
        forall i :: 0 <= i < |events| ==>
          (s <= i < s + |window| <==> start <= events[i] && (i == 0 || events[i - 1] < end))
    {
      var from := Search(start);
      var to := Search(end);
      var hi := if to + 1 <= |events| then to + 1 else |events|;
      s := from;
      window := if from <= hi then events[from..hi] else [];
      assert Ordered(events) && start < end && end in events ==> to < |events| && events[to] == end && window[to - from] == end;
    }
  }
}
