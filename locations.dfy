/** Geocoding search results and the `Location` records the weather service
    makes of them. */
module Locations {
  import opened Base

  /** One entry of the geocoding API's `results`: only `admin1` is always present. */
  datatype GeoItem = GeoItem(
    name: string,
    latitude: F64,
    longitude: F64,
    population: Option<u32>,
    admin1: string,
    admin2: Option<string>,
    admin3: Option<string>,
    admin4: Option<string>)

  /** A candidate location, as reported in the service's response. */
  datatype Location = Location(
    name: string,
    qualifiedName: string,
    population: Option<u32>,
    latitude: F64,
    longitude: F64)

  /** The name an optional region contributes: itself when present, nothing otherwise. */
  function Opt(name: Option<string>): (r: seq<string>)
    ensures |r| <= 1
  {
    if name.Some? then [name.value] else []
  }

  /** The administrative regions of an item, most specific first, absent ones skipped. */
  function Regions(item: GeoItem): (r: seq<string>)
    ensures |r| >= 1 && r[|r| - 1] == item.admin1
  {
    Opt(item.admin4) + Opt(item.admin3) + Opt(item.admin2) + [item.admin1]
  }

  /** `parts` joined with `sep` between consecutive parts. */
  function Join(parts: seq<string>, sep: string): string {
    if parts == [] then ""
    else if |parts| == 1 then parts[0]
    else parts[0] + sep + Join(parts[1..], sep)
  }

  /** The qualified name of a search result: its regions joined by ", ". */
  function QualifiedName(item: GeoItem): (q: string)
    ensures |item.admin1| <= |q| && q[|q| - |item.admin1|..] == item.admin1
  {
    JoinEndsWithLast(Regions(item), ", ");
    Join(Regions(item), ", ")
  }

  /** Joining a list that ends in `last` yields a string ending in `last`. */
  lemma {:induction false} JoinEndsWithLast(parts: seq<string>, sep: string)
    requires parts != []
    ensures var j := Join(parts, sep); var last := parts[|parts| - 1];
            |last| <= |j| && j[|j| - |last|..] == last
  {
    if |parts| > 1 {
      JoinEndsWithLast(parts[1..], sep);
      var rest := Join(parts[1..], sep);
      var last := parts[|parts| - 1];
      assert parts[1..][|parts[1..]| - 1] == last;
      var j := parts[0] + sep + rest;
      assert j[|j| - |rest|..] == rest;
      assert j[|j| - |last|..] == rest[|rest| - |last|..];
    }
  }

  /** A qualified name always ends with the required `admin1` region, and is
      exactly `admin1` when the optional regions are absent. */
  lemma QualifiedNameEndsWithAdmin1(item: GeoItem)
    ensures var q := QualifiedName(item);
            |item.admin1| <= |q| && q[|q| - |item.admin1|..] == item.admin1
    ensures item.admin2.None? && item.admin3.None? && item.admin4.None? ==>
            QualifiedName(item) == item.admin1
  {
    if item.admin2.None? && item.admin3.None? && item.admin4.None? {
      assert Regions(item) == [item.admin1];
    }
  }

  /** `Item::qualified_name`: append each present region of admin4, admin3,
      admin2 followed by ", ", then admin1, to an initially empty string. */
  method BuildQualifiedName(item: GeoItem) returns (n: string)
    ensures n == QualifiedName(item)
  {
    n := "";
    if item.admin4.Some? {
      n := n + item.admin4.value;
      n := n + ", ";
    }
    assert n == Pushed(item.admin4);
    if item.admin3.Some? {
      n := n + item.admin3.value;
      n := n + ", ";
    }
    assert n == Pushed(item.admin4) + Pushed(item.admin3);
    if item.admin2.Some? {
      n := n + item.admin2.value;
      n := n + ", ";
    }
    assert n == Pushed(item.admin4) + Pushed(item.admin3) + Pushed(item.admin2);
    n := n + item.admin1;
    PushedRegionsJoin(item, n);
  }

  /** The text `qualified_name` pushes for one optional region: the name and ", ", or nothing. */
  function Pushed(name: Option<string>): string {
    if name.Some? then name.value + ", " else ""
  }

  /** Prefixing an optional region to a non-empty join adds what `Pushed` gives for it. */
  lemma JoinOpt(name: Option<string>, rest: seq<string>)
    requires rest != []
    ensures Join(Opt(name) + rest, ", ") == Pushed(name) + Join(rest, ", ")
  {
    if name.Some? {
      assert (Opt(name) + rest)[1..] == rest;
    } else {
      assert Opt(name) + rest == rest;
    }
  }

  /** The string the pushes build equals the join of the present regions. */
  lemma PushedRegionsJoin(item: GeoItem, n: string)
    requires n == Pushed(item.admin4) + Pushed(item.admin3) + Pushed(item.admin2) + item.admin1
    ensures n == QualifiedName(item)
  {
    var p1 := [item.admin1];
    var p2 := Opt(item.admin2) + p1;
    var p3 := Opt(item.admin3) + p2;
    assert Join(p1, ", ") == item.admin1;
    JoinOpt(item.admin2, p1);
    JoinOpt(item.admin3, p2);
    JoinOpt(item.admin4, p3);
    assert Regions(item) == Opt(item.admin4) + p3;
    Associate(Pushed(item.admin4), Pushed(item.admin3), Pushed(item.admin2), item.admin1);
  }

  /** Regrouping four concatenated strings; kept apart from the lemma above so
      that the solver proves it without the facts about joins in scope. */
  lemma Associate(a: string, b: string, c: string, d: string)
    ensures a + b + c + d == a + (b + (c + d))
  {
  }

  /** Multnomah County, with no finer regions, reads "Multnomah County, Oregon". */
  lemma MultnomahExample(name: string, lat: F64, lon: F64, pop: Option<u32>)
    ensures QualifiedName(GeoItem(name, lat, lon, pop, "Oregon", Some("Multnomah County"), None, None))
            == "Multnomah County, Oregon"
  {
    var item := GeoItem(name, lat, lon, pop, "Oregon", Some("Multnomah County"), None, None);
    PushedRegionsJoin(item, Pushed(None) + Pushed(None) + Pushed(Some("Multnomah County")) + "Oregon");
    assert Pushed(None) + Pushed(None) + Pushed(Some("Multnomah County")) + "Oregon"
        == "Multnomah County, Oregon";
  }

  /** The `Location` made of one search result (the closure passed to `map`). */
  function ToLocation(item: GeoItem): (l: Location)
    ensures l.name == item.name && l.population == item.population
    ensures l.latitude == item.latitude && l.longitude == item.longitude
    ensures l.qualifiedName == QualifiedName(item)
  {
    Location(item.name, QualifiedName(item), item.population, item.latitude, item.longitude)
  }

  /** One `Location` per search result, in the same order, each copying the
      result's name, coordinates and population and carrying its qualified name. */
  function ToLocations(items: seq<GeoItem>): (r: seq<Location>)
    ensures |r| == |items|
    ensures forall i :: 0 <= i < |items| ==>
              r[i].name == items[i].name && r[i].population == items[i].population
              && r[i].latitude == items[i].latitude && r[i].longitude == items[i].longitude
              && r[i].qualifiedName == QualifiedName(items[i])
  {
    seq(|items|, i requires 0 <= i < |items| => ToLocation(items[i]))
  }
}
