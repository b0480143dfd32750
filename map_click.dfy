/**
 * `on_map_click`: the map's click handler keeps the markers of the last
 * clicks in a module-level list. The first three clicks each add a marker;
 * the fourth returns the three stored coordinates, in click order, and
 * clears the list without storing its own point. The map layers the markers
 * are drawn on are not part of this model; a marker is its coordinates.
 */
module MapClick {
  import opened Wrappers

  /** A map coordinate, (latitude, longitude). */
  type Point = (real, real)

  /** A map interaction: its type ("click", "mousemove", ...) and where it happened. */
  datatype Event = Event(kind: string, coordinates: Point)

  /** One call: the markers afterwards and the value returned. */
  datatype Outcome = Outcome(markers: seq<Point>, returned: Option<seq<Point>>)

  /** The handler on a list of stored markers, as a function. */
  function Step(markers: seq<Point>, e: Event): (o: Outcome)
    ensures e.kind != "click" ==> o == Outcome(markers, None)
    ensures e.kind == "click" && |markers| < 3 ==> o == Outcome(markers + [e.coordinates], None)
    ensures e.kind == "click" && |markers| >= 3 ==> o == Outcome([], Some(markers))
    ensures |markers| <= 3 ==> |o.markers| <= 3
  {
    if e.kind != "click" then Outcome(markers, None)
    else if |markers| < 3 then Outcome(markers + [e.coordinates], None)
    else Outcome([], Some(markers))
  }

  /** The coordinates of the clicks among `events`, in order. */
  function Clicks(events: seq<Event>): (cs: seq<Point>)
    ensures |cs| <= |events|
  {
    if events == [] then []
    else
      var last := events[|events| - 1];
      Clicks(events[..|events| - 1]) + (if last.kind == "click" then [last.coordinates] else [])
  }

  /** The markers stored after `events`, starting from the empty list. */
  function Replay(events: seq<Event>): seq<Point>
  {
    if events == [] then [] else Step(Replay(events[..|events| - 1]), events[|events| - 1]).markers
  }

  /**
   * After any events the list holds the last `n % 4` click points, where `n`
   * is the number of clicks so far: every fourth click empties it. So it
   * never holds more than three markers.
   */
  lemma {:induction false} ReplayHoldsRecentClicks(events: seq<Event>)
    ensures var cs := Clicks(events);
      Replay(events) == cs[|cs| - |cs| % 4..]
    ensures |Replay(events)| <= 3
  {
    if events != [] {
      var init := events[..|events| - 1];
      var e := events[|events| - 1];
      ReplayHoldsRecentClicks(init);
      var cs := Clicks(init);
      var m := Replay(init);
      assert Replay(events) == Step(m, e).markers;
      if e.kind == "click" {
        assert Clicks(events) == cs + [e.coordinates];
        ClickCountStep(|cs|);
        if |cs| % 4 < 3 {
          SuffixSnoc(cs, e.coordinates, |cs| % 4);
        }
      } else {
        assert Clicks(events) == cs;
      }
    }
  }

  /** One more click advances the count modulo four, wrapping from three to zero. */
  lemma ClickCountStep(n: nat)
    ensures (n + 1) % 4 == if n % 4 < 3 then n % 4 + 1 else 0
  {
  }

  /** Appending to a list extends each of its suffixes by the same element. */
  lemma SuffixSnoc<T>(s: seq<T>, x: T, k: nat)
    requires k <= |s|
    ensures (s + [x])[|s + [x]| - (k + 1)..] == s[|s| - k..] + [x]
  {
  }

  /**
   * A click that finds three stored markers returns exactly the three
   * previous clicks, in order; every other event returns nothing.
   */
  lemma FourthClickReturnsPreviousThree(events: seq<Event>, e: Event)
    ensures var cs := Clicks(events);
      var o := Step(Replay(events), e);
      o.returned.Some? <==> e.kind == "click" && |cs| % 4 == 3
    ensures var cs := Clicks(events);
      var o := Step(Replay(events), e);
      o.returned.Some? ==> |cs| >= 3 && o.returned.value == cs[|cs| - 3..]
  {
    ReplayHoldsRecentClicks(events);
  }

  /** The handler's state: the module-level `markers` list. */
  class MarkerStore {
    var markers: seq<Point>

    /** At most three markers are ever stored. */
    ghost predicate Valid()
      reads this
    {
      |markers| <= 3
    }

    /** The list as the module starts it: empty. */
    constructor ()
      ensures markers == [] && Valid()
    {
      markers := [];
    }

    /**
     * `on_map_click`: a non-click changes nothing; a click appends while
     * fewer than three markers are stored, and otherwise returns the stored
     * points and clears the list.
     */
    method OnMapClick(e: Event) returns (r: Option<seq<Point>>)
      requires Valid()
      modifies this
      ensures Valid()
      ensures Outcome(markers, r) == Step(old(markers), e)
    {
      if e.kind == "click" {
        if |markers| < 3 {
          markers := markers + [e.coordinates];
          return None;
        } else {
          var toReturn := markers;
          markers := [];
          return Some(toReturn);
        }
      }
      return None;
    }
  }
}
