/**
 * The request side of the Police Data UK client: every `extract_*` function
 * builds a URL from its optional arguments (or raises, or returns a message)
 * before it fetches anything. A URL is modelled as a request, its path and
 * its query parameters in order, rendered by `Url`.
 */
module PoliceApi {
  import opened Wrappers
  import opened Text
  import DateFormat

  /* ---------------- Splitting and joining ---------------- */

  /** `sep.join(parts)`. */
  function Join(parts: seq<string>, sep: char): string
  {
    if parts == [] then []
    else if |parts| == 1 then parts[0]
    else parts[0] + [sep] + Join(parts[1..], sep)
  }

  /** `s.split(sep)`: the pieces between the separators, at least one. */
  function Split(s: string, sep: char): (r: seq<string>)
    ensures |r| >= 1
  {
    if s == [] then [[]]
    else
      var rest := Split(s[1..], sep);
      if s[0] == sep then [[]] + rest
      else [[s[0]] + rest[0]] + rest[1..]
  }

  /** A string without the separator splits into itself. */
  lemma {:induction false} SplitWithout(p: string, sep: char)
    requires sep !in p
    ensures Split(p, sep) == [p]
  {
    if p != [] {
      SplitWithout(p[1..], sep);
      assert [p[0]] + p[1..] == p;
    }
  }

  /** The first separator ends the first piece. */
  lemma {:induction false} SplitAfter(p: string, rest: string, sep: char)
    requires sep !in p
    ensures Split(p + [sep] + rest, sep) == [p] + Split(rest, sep)
  {
    var s := p + [sep] + rest;
    if p == [] {
      assert s[0] == sep && s[1..] == rest;
    } else {
      assert s[0] == p[0] && s[1..] == p[1..] + [sep] + rest;
      SplitAfter(p[1..], rest, sep);
      assert [p[0]] + p[1..] == p;
    }
  }

  /** A character in none of the parts, and not the separator, is not in the joined text. */
  lemma {:induction false} JoinWithout(parts: seq<string>, sep: char, c: char)
    requires c != sep
    requires forall i :: 0 <= i < |parts| ==> c !in parts[i]
    ensures c !in Join(parts, sep)
  {
    if |parts| > 1 {
      JoinWithout(parts[1..], sep, c);
    }
  }

  /** Splitting undoes joining when no part holds the separator. */
  lemma {:induction false} SplitJoin(parts: seq<string>, sep: char)
    requires |parts| >= 1
    requires forall i :: 0 <= i < |parts| ==> sep !in parts[i]
    ensures Split(Join(parts, sep), sep) == parts
  {
    if |parts| == 1 {
      SplitWithout(parts[0], sep);
    } else {
      SplitJoin(parts[1..], sep);
      SplitAfter(parts[0], Join(parts[1..], sep), sep);
      assert [parts[0]] + parts[1..] == parts;
    }
  }

  /* ---------------- Key-value pairs ---------------- */

  /** Each pair written as key, `inner`, value. */
  function Pieces(ps: seq<(string, string)>, inner: char): (r: seq<string>)
    ensures |r| == |ps|
  {
    seq(|ps|, i requires 0 <= i < |ps| => ps[i].0 + [inner] + ps[i].1)
  }

  /** The pairs written out and joined by `outer`: `k=v&k=v` or `lat:lng,lat:lng`. */
  function JoinPairs(ps: seq<(string, string)>, outer: char, inner: char): string
  {
    Join(Pieces(ps, inner), outer)
  }

  /** Each piece read back as a pair; fails unless it holds exactly one `inner`. */
  function ParsePairs(pieces: seq<string>, inner: char): (r: Option<seq<(string, string)>>)
    ensures r.Some? ==> |r.value| == |pieces|
  {
    if pieces == [] then Some([])
    else
      var kv := Split(pieces[0], inner);
      if |kv| != 2 then None
      else
        match ParsePairs(pieces[1..], inner)
        case None => None
        case Some(rest) => Some([(kv[0], kv[1])] + rest)
  }

  /** Reading pairs back from joined text. */
  function SplitPairs(s: string, outer: char, inner: char): Option<seq<(string, string)>>
  {
    ParsePairs(Split(s, outer), inner)
  }

  lemma {:induction false} ParsePieces(ps: seq<(string, string)>, inner: char)
    requires forall i :: 0 <= i < |ps| ==> inner !in ps[i].0 && inner !in ps[i].1
    ensures ParsePairs(Pieces(ps, inner), inner) == Some(ps)
  {
    if ps != [] {
      SplitJoin([ps[0].0, ps[0].1], inner);
      assert Pieces(ps, inner)[1..] == Pieces(ps[1..], inner);
      ParsePieces(ps[1..], inner);
      assert [ps[0]] + ps[1..] == ps;
    }
  }

  /** Pairs whose keys and values hold neither separator are read back exactly. */
  lemma PairsRoundTrip(ps: seq<(string, string)>, outer: char, inner: char)
    requires |ps| >= 1 && outer != inner
    requires forall i :: 0 <= i < |ps| ==>
      outer !in ps[i].0 && outer !in ps[i].1 && inner !in ps[i].0 && inner !in ps[i].1
    ensures SplitPairs(JoinPairs(ps, outer, inner), outer, inner) == Some(ps)
  {
    var pieces := Pieces(ps, inner);
    assert forall i :: 0 <= i < |pieces| ==> outer !in pieces[i];
    SplitJoin(pieces, outer);
    ParsePieces(ps, inner);
  }

  /* ---------------- Requests and URLs ---------------- */

  /** A GET request: the URL's path and its query parameters in order. */
  datatype Request = Request(path: string, query: seq<(string, string)>)

  /** The URL: the path, then `?` and the parameters when there are any. */
  function Url(r: Request): (u: string)
    ensures r.query == [] ==> u == r.path
    ensures r.query != [] ==> |u| > |r.path| && u[..|r.path|] == r.path && u[|r.path|] == '?'
  {
    if r.query == [] then r.path else r.path + "?" + JoinPairs(r.query, '&', '=')
  }

  /** A URL read back as a request. */
  function ParseUrl(u: string): Option<Request>
  {
    var parts := Split(u, '?');
    if |parts| == 1 then Some(Request(u, []))
    else if |parts| == 2 then
      match SplitPairs(parts[1], '&', '=')
      case None => None
      case Some(ps) => Some(Request(parts[0], ps))
    else None
  }

  /** Text that can stand in a query without being mistaken for its syntax. */
  predicate QuerySafe(s: string)
  {
    '?' !in s && '&' !in s && '=' !in s
  }

  /** A path without `?` and parameters that are all query-safe. */
  predicate WellFormed(r: Request)
  {
    '?' !in r.path && forall i :: 0 <= i < |r.query| ==> QuerySafe(r.query[i].0) && QuerySafe(r.query[i].1)
  }

  /** The URL of a well-formed request reads back as that request. */
  lemma UrlRoundTrip(r: Request)
    requires WellFormed(r)
    ensures ParseUrl(Url(r)) == Some(r)
  {
    if r.query == [] {
      SplitWithout(r.path, '?');
    } else {
      var pieces := Pieces(r.query, '=');
      assert forall i :: 0 <= i < |pieces| ==> '?' !in pieces[i];
      JoinWithout(pieces, '&', '?');
      var q := JoinPairs(r.query, '&', '=');
      assert r.path + "?" + q == r.path + ['?'] + q;
      SplitAfter(r.path, q, '?');
      SplitWithout(q, '?');
      PairsRoundTrip(r.query, '&', '=');
    }
  }

  /* ---------------- Arguments ---------------- */

  /** The exceptions the builders raise. */
  datatype ApiError =
    | ValueError         // a required argument is None
    | IndexError         // a polygon with fewer than three points
    | UnboundLocalError  // `url` never assigned: an unknown forces type

  /** The time `datetime.now()` reads: the clock is a parameter. */
  datatype Clock = Clock(year: nat, month: nat)

  /** `f"{current_year}-{current_month}"`: neither number is padded. */
  function CurrentDate(now: Clock): string
  {
    NatToString(now.year) + "-" + NatToString(now.month)
  }

  /** The date a query carries: the given one, else the current year and month. */
  function DateValue(date: Option<string>, now: Clock): string
  {
    if date.None? then CurrentDate(now) else date.value
  }

  /** A number at least `10^k` prints in more than `k` digits. */
  lemma {:induction false} NatToStringLengthAtLeast(n: nat, k: nat)
    requires n >= Pow10(k)
    ensures |NatToString(n)| >= k + 1
    decreases k
  {
    if k > 0 {
      assert n / 10 >= Pow10(k - 1);
      NatToStringLengthAtLeast(n / 10, k - 1);
    }
  }

  /**
   * For a four-digit year the current date is a "YYYY-MM" label exactly from
   * October on: an unpadded January to September gives "YYYY-M".
   */
  lemma CurrentDateLabel(now: Clock)
    requires 1000 <= now.year <= 9999 && 1 <= now.month <= 12
    ensures DateFormat.IsMonthLabel(CurrentDate(now)) <==> now.month >= 10
    ensures now.month < 10 ==> |CurrentDate(now)| == 6
  {
    var y := NatToString(now.year);
    var m := NatToString(now.month);
    assert Pow10(3) == 1000 && Pow10(4) == 10000;
    NatToStringLength(now.year, 4);
    NatToStringLengthAtLeast(now.year, 3);
    NatToStringRoundTrip(now.year);
    NatToStringRoundTrip(now.month);
    var l := CurrentDate(now);
    assert l == y + "-" + m;
    if now.month >= 10 {
      assert |m| == 2;
      assert l[..4] == y && l[5..] == m && l[4] == '-';
    } else {
      assert |m| == 1;
    }
  }

  /** Python truthiness of an optional number: None and zero are false. */
  predicate Truthy(x: Option<real>)
  {
    x.Some? && x.value != 0.0
  }

  /** `lat and lng != None`: a latitude of 0 or None skips the location. */
  predicate UsesLatLng(lat: Option<real>, lng: Option<real>)
  {
    Truthy(lat) && lng.Some?
  }

  /** `f"{x}"` for an argument that may be None. */
  function Render(x: Option<string>): string
  {
    if x.None? then "None" else x.value
  }

  /** A polygon vertex, (latitude, longitude). */
  type Point = (real, real)

  /** The first three vertices, each rendered by `show` (the decimal form `f"{x}"` prints). */
  function PolyPoints(poly: seq<Point>, show: real -> string): (r: seq<(string, string)>)
    requires |poly| >= 3
    ensures |r| == 3
  {
    seq(3, i requires 0 <= i < 3 => (show(poly[i].0), show(poly[i].1)))
  }

  /** The poly parameter: the first three vertices as `lat:lng`, separated by commas. */
  function PolyValue(poly: seq<Point>, show: real -> string): string
    requires |poly| >= 3
  {
    JoinPairs(PolyPoints(poly, show), ',', ':')
  }

  /** The poly parameter without a date, as written: the third vertex is joined by ',' instead of ':'. */
  function PolyValueNoDateAsWritten(poly: seq<Point>, show: real -> string): string
    requires |poly| >= 3
  {
    show(poly[0].0) + ":" + show(poly[0].1) + "," + show(poly[1].0) + ":" + show(poly[1].1) + ","
      + show(poly[2].0) + "," + show(poly[2].1)
  }

  /** Text that can stand for one coordinate: no query syntax, no ',' and no ':'. */
  predicate CoordSafe(s: string)
  {
    QuerySafe(s) && ',' !in s && ':' !in s
  }

  /** A renderer whose every output is coordinate-safe, as Python's float formatting is. */
  ghost predicate PlainRenderer(show: real -> string)
  {
    forall x :: CoordSafe(show(x))
  }

  /** Each rendered coordinate is coordinate-safe. */
  lemma RenderedSafe(show: real -> string, x: real)
    requires PlainRenderer(show)
    ensures CoordSafe(show(x))
  {
  }

  /** The poly parameter reads back as the three rendered vertices. */
  lemma PolyRoundTrip(poly: seq<Point>, show: real -> string)
    requires |poly| >= 3 && PlainRenderer(show)
    ensures SplitPairs(PolyValue(poly, show), ',', ':') == Some(PolyPoints(poly, show))
    ensures QuerySafe(PolyValue(poly, show))
  {
    var ps := PolyPoints(poly, show);
    forall i | 0 <= i < 3 ensures CoordSafe(ps[i].0) && CoordSafe(ps[i].1) {
      RenderedSafe(show, poly[i].0);
      RenderedSafe(show, poly[i].1);
    }
    PairsRoundTrip(ps, ',', ':');
    var pieces := Pieces(ps, ':');
    assert forall i :: 0 <= i < |pieces| ==> QuerySafe(pieces[i]);
    JoinWithout(pieces, ',', '?');
    JoinWithout(pieces, ',', '&');
    JoinWithout(pieces, ',', '=');
  }

  /** As written, the no-date poly parameter does not read back as vertices at all. */
  lemma PolyNoDateAsWrittenUnreadable(poly: seq<Point>, show: real -> string)
    requires |poly| >= 3 && PlainRenderer(show)
    ensures SplitPairs(PolyValueNoDateAsWritten(poly, show), ',', ':') == None
  {
    var a, b := show(poly[0].0), show(poly[0].1);
    var c, d := show(poly[1].0), show(poly[1].1);
    var e, f := show(poly[2].0), show(poly[2].1);
    RenderedSafe(show, poly[0].0);
    RenderedSafe(show, poly[0].1);
    RenderedSafe(show, poly[1].0);
    RenderedSafe(show, poly[1].1);
    RenderedSafe(show, poly[2].0);
    RenderedSafe(show, poly[2].1);
    var parts := [a + [':'] + b, c + [':'] + d, e, f];
    assert Join(parts[2..], ',') == e + [','] + f;
    assert Join(parts[1..], ',') == c + [':'] + d + [','] + e + [','] + f;
    assert PolyValueNoDateAsWritten(poly, show) == Join(parts, ',');
    SplitJoin(parts, ',');
    SplitWithout(e, ':');
    SplitJoin([a, b], ':');
    SplitJoin([c, d], ':');
    assert parts[2..][0] == e;
    assert ParsePairs(parts[2..], ':') == None;
    assert parts[1..][1..] == parts[2..];
    assert ParsePairs(parts[1..], ':') == None;
  }

  /** The current date is query-safe. */
  lemma CurrentDateSafe(now: Clock)
    ensures QuerySafe(CurrentDate(now))
  {
    NatToStringRoundTrip(now.year);
    NatToStringRoundTrip(now.month);
    var y, m := NatToString(now.year), NatToString(now.month);
    assert forall i :: 0 <= i < |y| ==> IsDigit(y[i]);
    assert forall i :: 0 <= i < |m| ==> IsDigit(m[i]);
  }

  /** Every argument that is given is query-safe. */
  predicate SafeArg(x: Option<string>)
  {
    x.None? || QuerySafe(x.value)
  }

  /** The date parameter is query-safe when the given date is. */
  lemma DateValueSafe(date: Option<string>, now: Clock)
    requires SafeArg(date)
    ensures QuerySafe(DateValue(date, now))
  {
    CurrentDateSafe(now);
  }

  /** Parameters whose keys and values are all query-safe. */
  predicate SafeParams(ps: seq<(string, string)>)
  {
    forall i :: 0 <= i < |ps| ==> QuerySafe(ps[i].0) && QuerySafe(ps[i].1)
  }

  /* ---------------- Location parameters ---------------- */

  /**
   * The location part of a query, tested in the order the builders test it:
   * latitude and longitude when `lat and lng != None`, else the polygon, else
   * the location id, else ValueError. Builders without one of these pass None.
   * `dated` says whether a date was given: the two builders that write the
   * polygon on both branches join its third vertex by ',' on the dateless one.
   */
  function LocationParams(lat: Option<real>, lng: Option<real>, poly: Option<seq<Point>>, dated: bool,
                          locationId: Option<string>, show: real -> string): (r: Result<seq<(string, string)>, ApiError>)
    ensures r.Ok? <==> UsesLatLng(lat, lng) || (poly.Some? && |poly.value| >= 3) || (poly.None? && locationId.Some?)
    ensures r.Err? ==> r.error != UnboundLocalError && (r.error == IndexError <==> poly.Some?)
    ensures r.Ok? && UsesLatLng(lat, lng) ==> r.value == [("lat", show(lat.value)), ("lng", show(lng.value))]
    ensures r.Ok? && !UsesLatLng(lat, lng) && poly.Some? && dated ==> r.value == [("poly", PolyValue(poly.value, show))]
    ensures r.Ok? && !UsesLatLng(lat, lng) && poly.Some? && !dated ==>
      r.value == [("poly", PolyValueNoDateAsWritten(poly.value, show))]
    ensures r.Ok? && !UsesLatLng(lat, lng) && poly.None? ==> r.value == [("location_id", locationId.value)]
  {
    if UsesLatLng(lat, lng) then Ok([("lat", show(lat.value)), ("lng", show(lng.value))])
    else if poly.Some? then
      if |poly.value| < 3 then Err(IndexError)
      else if dated then Ok([("poly", PolyValue(poly.value, show))])
      else Ok([("poly", PolyValueNoDateAsWritten(poly.value, show))])
    else if locationId.Some? then Ok([("location_id", locationId.value)])
    else Err(ValueError)
  }

  /** With a plain renderer the as-written polygon value is still query-safe. */
  lemma PolyNoDateAsWrittenSafe(poly: seq<Point>, show: real -> string)
    requires |poly| >= 3 && PlainRenderer(show)
    ensures QuerySafe(PolyValueNoDateAsWritten(poly, show))
  {
    RenderedSafe(show, poly[0].0);
    RenderedSafe(show, poly[0].1);
    RenderedSafe(show, poly[1].0);
    RenderedSafe(show, poly[1].1);
    RenderedSafe(show, poly[2].0);
    RenderedSafe(show, poly[2].1);
  }

  /** With a plain renderer and a safe location id, the location parameters are query-safe. */
  lemma LocationParamsSafe(lat: Option<real>, lng: Option<real>, poly: Option<seq<Point>>, dated: bool,
                           locationId: Option<string>, show: real -> string)
    requires PlainRenderer(show) && SafeArg(locationId)
    requires LocationParams(lat, lng, poly, dated, locationId, show).Ok?
    ensures SafeParams(LocationParams(lat, lng, poly, dated, locationId, show).value)
  {
    if UsesLatLng(lat, lng) {
      RenderedSafe(show, lat.value);
      RenderedSafe(show, lng.value);
    } else if poly.Some? {
      if dated {
        PolyRoundTrip(poly.value, show);
      } else {
        PolyNoDateAsWrittenSafe(poly.value, show);
      }
    }
  }

  /* ---------------- Builders ---------------- */

  const Root: string := "https://data.police.uk/api/"

  /** The same root over plain http, which the stops-at-location endpoint uses. */
  const HttpRoot: string := "http://data.police.uk/api/"

  /**
   * `extract_forces`: the force list, or one of the two Leicestershire
   * resources named in any letter case; any other type leaves `url` unbound.
   */
  function Forces(forceType: Option<string>): (r: Result<Request, ApiError>)
    ensures r.Ok? <==> forceType.None? || Lower(forceType.value) == "leicestershire"
                       || Lower(forceType.value) == "leicestershire/people"
    ensures r.Err? ==> r.error == UnboundLocalError
    ensures r.Ok? ==> r.value.query == []
    ensures r.Ok? && forceType.Some? ==> r.value.path == Root + "forces" + "/" + Lower(forceType.value)
  {
    if forceType.None? then Ok(Request(Root + "forces", []))
    else
      var l := Lower(forceType.value);
      if l == "leicestershire" || l == "leicestershire/people" then Ok(Request(Root + "forces" + "/" + l, []))
      else Err(UnboundLocalError)
  }

  /** The type is matched in any letter case: lower-casing it first changes nothing. */
  lemma ForcesCaseInsensitive(t: string)
    ensures Forces(Some(t)) == Forces(Some(Lower(t)))
  {
    LowerIdempotent(t);
  }

  /**
   * `extract_street_level_crimes`: the crime type's endpoint ("all-crime"
   * for None), the location, then the given date or the current month.
   */
  function StreetLevelCrimes(lat: Option<real>, lng: Option<real>, date: Option<string>, poly: Option<seq<Point>>,
                             crimeType: Option<string>, now: Clock, show: real -> string): (r: Result<Request, ApiError>)
    ensures r.Ok? <==> UsesLatLng(lat, lng) || (poly.Some? && |poly.value| >= 3)
    ensures r.Err? ==> (r.error == ValueError <==> poly.None?)
    ensures r.Ok? ==> r.value.path == Root + "crimes-street/" + (if crimeType.None? then "all-crime" else crimeType.value)
    ensures r.Ok? ==> r.value.query == LocationParams(lat, lng, poly, date.Some?, None, show).value + [("date", DateValue(date, now))]
  {
    match LocationParams(lat, lng, poly, date.Some?, None, show)
    case Err(e) => Err(e)
    case Ok(loc) =>
      Ok(Request(Root + "crimes-street/" + (if crimeType.None? then "all-crime" else crimeType.value),
                 loc + [("date", DateValue(date, now))]))
  }

  /**
   * `extract_street_level_outcomes`: the date first, then the location
   * (lat/lng, polygon or location id).
   */
  function StreetLevelOutcomes(locationId: Option<string>, lat: Option<real>, lng: Option<real>, date: Option<string>,
                               poly: Option<seq<Point>>, now: Clock, show: real -> string): (r: Result<Request, ApiError>)
    ensures r.Ok? <==> LocationParams(lat, lng, poly, date.Some?, locationId, show).Ok?
    ensures r.Ok? ==> r.value.path == Root + "outcomes-at-location"
    ensures r.Ok? ==> r.value.query == [("date", DateValue(date, now))] + LocationParams(lat, lng, poly, date.Some?, locationId, show).value
  {
    match LocationParams(lat, lng, poly, date.Some?, locationId, show)
    case Err(e) => Err(e)
    case Ok(loc) => Ok(Request(Root + "outcomes-at-location", [("date", DateValue(date, now))] + loc))
  }

  /** `extract_crimes_at_location`: the date, then lat/lng or the location id; no polygon. */
  function CrimesAtLocation(lat: Option<real>, lng: Option<real>, date: Option<string>, locationId: Option<string>,
                            now: Clock, show: real -> string): (r: Result<Request, ApiError>)
    ensures r.Ok? <==> UsesLatLng(lat, lng) || locationId.Some?
    ensures r.Err? ==> r.error == ValueError
    ensures r.Ok? ==> r.value.path == Root + "crimes-at-location"
    ensures r.Ok? ==> r.value.query == [("date", DateValue(date, now))] + LocationParams(lat, lng, None, true, locationId, show).value
  {
    match LocationParams(lat, lng, None, true, locationId, show)
    case Err(e) => Err(e)
    case Ok(loc) => Ok(Request(Root + "crimes-at-location", [("date", DateValue(date, now))] + loc))
  }

  /**
   * `(category and force) != None`: true for an empty category whatever the
   * force, false for a None category, otherwise whether a force is given.
   */
  predicate CategoryAndForce(category: Option<string>, force: Option<string>)
  {
    if category.None? then false else if category.value == "" then true else force.Some?
  }

  /**
   * `extract_crimes_no_location`: category, force and date; a None force
   * gets through with an empty category and is then written "None".
   */
  function CrimesNoLocation(category: Option<string>, force: Option<string>, date: Option<string>, now: Clock): (r: Result<Request, ApiError>)
    ensures r.Ok? <==> category == Some("") || (category.Some? && force.Some?)
    ensures r.Err? ==> r.error == ValueError
    ensures r.Ok? ==> r.value.path == Root + "crimes-no-location"
    ensures r.Ok? ==> r.value.query == [("category", Render(category)), ("force", Render(force)), ("date", DateValue(date, now))]
    ensures r.Ok? && force.None? ==> r.value.query[1].1 == "None"
  {
    if CategoryAndForce(category, force) then
      Ok(Request(Root + "crimes-no-location",
                 [("category", Render(category)), ("force", Render(force)), ("date", DateValue(date, now))]))
    else Err(ValueError)
  }

  /** `extract_crimes_categories_at_date`: never raises. */
  function CrimeCategories(date: Option<string>, now: Clock): (r: Request)
    ensures r.query == [("date", DateValue(date, now))]
    ensures date.None? ==> r.query[0].1 == CurrentDate(now)
  {
    Request(Root + "crime-categories", [("date", DateValue(date, now))])
  }

  /** `extract_last_updated`: a fixed URL. */
  const LastUpdated: Request := Request(Root + "crime-last-updated", [])

  /** `extract_outcome_for_specific_crime`: the crime id appended to the path. */
  function OutcomeForCrime(crimeId: Option<string>): (r: Result<Request, ApiError>)
    ensures r.Ok? <==> crimeId.Some?
    ensures r.Err? ==> r.error == ValueError
    ensures r.Ok? ==> r.value == Request(Root + "outcomes-for-crime/" + crimeId.value, [])
  {
    if crimeId.Some? then Ok(Request(Root + "outcomes-for-crime/" + crimeId.value, [])) else Err(ValueError)
  }

  /** `extract_neighbourhoods_for_a_force`. */
  function NeighbourhoodsForForce(force: Option<string>): (r: Result<Request, ApiError>)
    ensures r.Ok? <==> force.Some?
    ensures r.Err? ==> r.error == ValueError
    ensures r.Ok? ==> r.value == Request(Root + force.value + "/neighbourhoods", [])
  {
    if force.Some? then Ok(Request(Root + force.value + "/neighbourhoods", [])) else Err(ValueError)
  }

  /** The five per-neighbourhood resources. */
  datatype NeighbourhoodInfo = Details | Boundary | Team | Events | Priorities

  /** The path segments after the neighbourhood id. */
  function InfoSegments(info: NeighbourhoodInfo): (segs: seq<string>)
    ensures |segs| <= 1
  {
    match info
    case Details => []
    case Boundary => ["boundary"]
    case Team => ["people"]
    case Events => ["events"]
    case Priorities => ["priorities"]
  }

  /** What the neighbourhood builders produce: a request, or a message returned instead of data. */
  datatype Reply = Fetch(request: Request) | Message(text: string)

  const NeighbourhoodMessage: string := "specify the neighbourhood_id and force"

  /**
   * The five `extract_*neighbourhood*_for_a_force` builders: a request for
   * `force/id` and the resource's segment when both are given, the message
   * when neither is, ValueError when one is missing.
   */
  function NeighbourhoodRequest(force: Option<string>, id: Option<string>, info: NeighbourhoodInfo): (r: Result<Reply, ApiError>)
    ensures r.Ok? <==> force.Some? == id.Some?
    ensures r.Err? ==> r.error == ValueError
    ensures r.Ok? && force.None? ==> r.value == Message(NeighbourhoodMessage)
    ensures r.Ok? && force.Some? ==> r.value.Fetch? && r.value.request.query == []
    ensures r.Ok? && force.Some? ==> r.value.request.path == Root + Join([force.value, id.value] + InfoSegments(info), '/')
  {
    if force.Some? && id.Some? then
      var segs := InfoSegments(info);
      var tail := if segs == [] then "" else "/" + segs[0];
      JoinForceId(force.value, id.value, segs);
      Ok(Fetch(Request(Root + force.value + "/" + id.value + tail, [])))
    else if force.None? && id.None? then Ok(Message(NeighbourhoodMessage))
    else Err(ValueError)
  }

  /** `force/id`, then the resource's segment if there is one, joined by '/'. */
  lemma JoinForceId(force: string, id: string, segs: seq<string>)
    requires |segs| <= 1
    ensures Join([force, id] + segs, '/') == force + "/" + id + (if segs == [] then "" else "/" + segs[0])
  {
    var p := [force, id] + segs;
    assert p[1..] == [id] + segs;
    if segs != [] {
      assert p[1..][1..] == segs;
      assert Join(p[1..], '/') == id + "/" + segs[0];
    }
  }

  /** The path after the API root splits back into the force, the id and the resource's segment. */
  lemma NeighbourhoodSegments(force: string, id: string, info: NeighbourhoodInfo)
    requires '/' !in force && '/' !in id
    ensures var p := NeighbourhoodRequest(Some(force), Some(id), info).value.request.path;
      |p| >= |Root| && p[..|Root|] == Root && Split(p[|Root|..], '/') == [force, id] + InfoSegments(info)
  {
    var parts := [force, id] + InfoSegments(info);
    var p := NeighbourhoodRequest(Some(force), Some(id), info).value.request.path;
    assert p[|Root|..] == Join(parts, '/');
    assert forall i :: 0 <= i < |parts| ==> '/' !in parts[i];
    SplitJoin(parts, '/');
  }

  /**
   * `extract_neighbourhood_at_location`: `q=lat,lng`. The test is
   * `lat != None`, so here a latitude of 0 is accepted.
   */
  function NeighbourhoodAtLocation(lat: Option<real>, lng: Option<real>, show: real -> string): (r: Result<Request, ApiError>)
    ensures r.Ok? <==> lat.Some? && lng.Some?
    ensures r.Err? ==> r.error == ValueError
    ensures r.Ok? ==> r.value.path == Root + "locate-neighbourhood"
    ensures r.Ok? ==> r.value.query == [("q", show(lat.value) + "," + show(lng.value))]
  {
    if lat.Some? && lng.Some? then Ok(Request(Root + "locate-neighbourhood", [("q", show(lat.value) + "," + show(lng.value))]))
    else Err(ValueError)
  }

  /**
   * A latitude of 0 with no polygon: the neighbourhood lookup accepts it,
   * the street-level builder treats it as absent and raises ValueError.
   */
  lemma ZeroLatitude(lng: real, date: Option<string>, crimeType: Option<string>, now: Clock, show: real -> string)
    ensures NeighbourhoodAtLocation(Some(0.0), Some(lng), show).Ok?
    ensures StreetLevelCrimes(Some(0.0), Some(lng), date, None, crimeType, now, show) == Err(ValueError)
    ensures CrimesAtLocation(Some(0.0), Some(lng), date, None, now, show) == Err(ValueError)
  {
  }

  /** The stop-search endpoint: stops at a location (over plain http) when a location id is given. */
  function StopSearchPath(locationId: Option<string>): string
  {
    if locationId.Some? then HttpRoot + "stops-at-location" else Root + "stops-street"
  }

  /**
   * `extract_stop_search`: the location (lat/lng, polygon or location id),
   * then the date; the endpoint depends only on whether a location id is given.
   */
  function StopSearch(date: Option<string>, lng: Option<real>, lat: Option<real>, poly: Option<seq<Point>>,
                      locationId: Option<string>, now: Clock, show: real -> string): (r: Result<Request, ApiError>)
    ensures r.Ok? <==> LocationParams(lat, lng, poly, true, locationId, show).Ok?
    ensures r.Ok? ==> r.value.path == StopSearchPath(locationId)
    ensures r.Ok? ==> r.value.query == LocationParams(lat, lng, poly, true, locationId, show).value + [("date", DateValue(date, now))]
  {
    match LocationParams(lat, lng, poly, true, locationId, show)
    case Err(e) => Err(e)
    case Ok(loc) => Ok(Request(StopSearchPath(locationId), loc + [("date", DateValue(date, now))]))
  }

  /** `extract_stop_search_no_loc`: the force and the date; a None force raises whatever the date. */
  function StopSearchNoLocation(date: Option<string>, force: Option<string>, now: Clock): (r: Result<Request, ApiError>)
    ensures r.Ok? <==> force.Some?
    ensures r.Err? ==> r.error == ValueError
    ensures r.Ok? ==> r.value == Request(Root + "stops-no-location", [("force", force.value), ("date", DateValue(date, now))])
  {
    if force.Some? then Ok(Request(Root + "stops-no-location", [("force", force.value), ("date", DateValue(date, now))]))
    else Err(ValueError)
  }

  /** `extract_stop_search_force`: the force and the date; a None force raises whatever the date. */
  function StopSearchForce(date: Option<string>, force: Option<string>, now: Clock): (r: Result<Request, ApiError>)
    ensures r.Ok? <==> force.Some?
    ensures r.Err? ==> r.error == ValueError
    ensures r.Ok? ==> r.value == Request(Root + "stops-force", [("force", force.value), ("date", DateValue(date, now))])
  {
    if force.Some? then Ok(Request(Root + "stops-force", [("force", force.value), ("date", DateValue(date, now))]))
    else Err(ValueError)
  }

  /* ---------------- URLs read back ---------------- */

  /** The roots hold no '?'. */
  lemma RootsSafe()
    ensures '?' !in Root && '?' !in HttpRoot
  {
  }

  /** The located endpoints hold no '?'. */
  lemma LocatedPathsSafe()
    ensures '?' !in "crimes-street/" && '?' !in "all-crime" && '?' !in "outcomes-at-location"
    ensures '?' !in "crimes-at-location" && '?' !in "stops-street" && '?' !in "stops-at-location"
  {
  }

  /** The force, category and date endpoints hold no '?'. */
  lemma ForcePathsSafe()
    ensures '?' !in "crimes-no-location" && '?' !in "crime-categories"
    ensures '?' !in "stops-no-location" && '?' !in "stops-force"
  {
  }

  /**
   * With a plain renderer and query-safe arguments, the street-level URL
   * reads back as exactly its path and its parameters, in order.
   */
  lemma StreetLevelCrimesRoundTrip(lat: Option<real>, lng: Option<real>, date: Option<string>, poly: Option<seq<Point>>,
                                   crimeType: Option<string>, now: Clock, show: real -> string)
    requires PlainRenderer(show) && SafeArg(date) && SafeArg(crimeType)
    requires StreetLevelCrimes(lat, lng, date, poly, crimeType, now, show).Ok?
    ensures var r := StreetLevelCrimes(lat, lng, date, poly, crimeType, now, show).value;
      ParseUrl(Url(r)) == Some(r)
  {
    RootsSafe();
    LocatedPathsSafe();
    DateValueSafe(date, now);
    LocationParamsSafe(lat, lng, poly, date.Some?, None, show);
    UrlRoundTrip(StreetLevelCrimes(lat, lng, date, poly, crimeType, now, show).value);
  }

  /** The same for the street-level outcomes URL. */
  lemma StreetLevelOutcomesRoundTrip(locationId: Option<string>, lat: Option<real>, lng: Option<real>, date: Option<string>,
                                     poly: Option<seq<Point>>, now: Clock, show: real -> string)
    requires PlainRenderer(show) && SafeArg(date) && SafeArg(locationId)
    requires StreetLevelOutcomes(locationId, lat, lng, date, poly, now, show).Ok?
    ensures var r := StreetLevelOutcomes(locationId, lat, lng, date, poly, now, show).value;
      ParseUrl(Url(r)) == Some(r)
  {
    RootsSafe();
    LocatedPathsSafe();
    DateValueSafe(date, now);
    LocationParamsSafe(lat, lng, poly, date.Some?, locationId, show);
    UrlRoundTrip(StreetLevelOutcomes(locationId, lat, lng, date, poly, now, show).value);
  }

  /** The same for the crimes-at-location URL. */
  lemma CrimesAtLocationRoundTrip(lat: Option<real>, lng: Option<real>, date: Option<string>, locationId: Option<string>,
                                  now: Clock, show: real -> string)
    requires PlainRenderer(show) && SafeArg(date) && SafeArg(locationId)
    requires CrimesAtLocation(lat, lng, date, locationId, now, show).Ok?
    ensures var r := CrimesAtLocation(lat, lng, date, locationId, now, show).value;
      ParseUrl(Url(r)) == Some(r)
  {
    RootsSafe();
    LocatedPathsSafe();
    DateValueSafe(date, now);
    LocationParamsSafe(lat, lng, None, true, locationId, show);
    UrlRoundTrip(CrimesAtLocation(lat, lng, date, locationId, now, show).value);
  }

  /** The same for the stop-search URL. */
  lemma StopSearchRoundTrip(date: Option<string>, lng: Option<real>, lat: Option<real>, poly: Option<seq<Point>>,
                            locationId: Option<string>, now: Clock, show: real -> string)
    requires PlainRenderer(show) && SafeArg(date) && SafeArg(locationId)
    requires StopSearch(date, lng, lat, poly, locationId, now, show).Ok?
    ensures var r := StopSearch(date, lng, lat, poly, locationId, now, show).value;
      ParseUrl(Url(r)) == Some(r)
  {
    RootsSafe();
    LocatedPathsSafe();
    DateValueSafe(date, now);
    LocationParamsSafe(lat, lng, poly, true, locationId, show);
    UrlRoundTrip(StopSearch(date, lng, lat, poly, locationId, now, show).value);
  }

  /**
   * On the polygon branch the street-level crimes query reads back as the
   * three vertices exactly when a date is given.
   */
  lemma StreetLevelCrimesPoly(lat: Option<real>, lng: Option<real>, date: Option<string>, poly: Option<seq<Point>>,
                              crimeType: Option<string>, now: Clock, show: real -> string)
    requires PlainRenderer(show) && !UsesLatLng(lat, lng) && poly.Some? && |poly.value| >= 3
    ensures var q := StreetLevelCrimes(lat, lng, date, poly, crimeType, now, show).value.query;
      q[0].0 == "poly" && (SplitPairs(q[0].1, ',', ':') == Some(PolyPoints(poly.value, show)) <==> date.Some?)
  {
    if date.Some? {
      PolyRoundTrip(poly.value, show);
    } else {
      PolyNoDateAsWrittenUnreadable(poly.value, show);
    }
  }

  /** The same for the street-level outcomes query, where the polygon follows the date. */
  lemma StreetLevelOutcomesPoly(locationId: Option<string>, lat: Option<real>, lng: Option<real>, date: Option<string>,
                                poly: Option<seq<Point>>, now: Clock, show: real -> string)
    requires PlainRenderer(show) && !UsesLatLng(lat, lng) && poly.Some? && |poly.value| >= 3
    ensures var q := StreetLevelOutcomes(locationId, lat, lng, date, poly, now, show).value.query;
      q[1].0 == "poly" && (SplitPairs(q[1].1, ',', ':') == Some(PolyPoints(poly.value, show)) <==> date.Some?)
  {
    if date.Some? {
      PolyRoundTrip(poly.value, show);
    } else {
      PolyNoDateAsWrittenUnreadable(poly.value, show);
    }
  }

  /** The crimes-with-no-location URL reads back as its request. */
  lemma CrimesNoLocationRoundTrip(category: Option<string>, force: Option<string>, date: Option<string>, now: Clock)
    requires SafeArg(category) && SafeArg(force) && SafeArg(date)
    requires CrimesNoLocation(category, force, date, now).Ok?
    ensures var r := CrimesNoLocation(category, force, date, now).value;
      ParseUrl(Url(r)) == Some(r)
  {
    RootsSafe();
    ForcePathsSafe();
    DateValueSafe(date, now);
    assert QuerySafe("None");
    UrlRoundTrip(CrimesNoLocation(category, force, date, now).value);
  }

  /** The crime-categories URL reads back as its request. */
  lemma CrimeCategoriesRoundTrip(date: Option<string>, now: Clock)
    requires SafeArg(date)
    ensures ParseUrl(Url(CrimeCategories(date, now))) == Some(CrimeCategories(date, now))
  {
    RootsSafe();
    ForcePathsSafe();
    DateValueSafe(date, now);
    UrlRoundTrip(CrimeCategories(date, now));
  }

  /** The stops-with-no-location URL reads back as its request. */
  lemma StopSearchNoLocationRoundTrip(date: Option<string>, force: Option<string>, now: Clock)
    requires SafeArg(force) && SafeArg(date)
    requires force.Some?
    ensures var r := StopSearchNoLocation(date, force, now).value;
      ParseUrl(Url(r)) == Some(r)
  {
    RootsSafe();
    ForcePathsSafe();
    DateValueSafe(date, now);
    UrlRoundTrip(StopSearchNoLocation(date, force, now).value);
  }

  /** The stops-by-force URL reads back as its request. */
  lemma StopSearchForceRoundTrip(date: Option<string>, force: Option<string>, now: Clock)
    requires SafeArg(force) && SafeArg(date)
    requires force.Some?
    ensures var r := StopSearchForce(date, force, now).value;
      ParseUrl(Url(r)) == Some(r)
  {
    RootsSafe();
    ForcePathsSafe();
    DateValueSafe(date, now);
    UrlRoundTrip(StopSearchForce(date, force, now).value);
  }
}
