/** The locations endpoint of archivist/locations.py: the `Location` view of a
    JSON object and the request-building logic of `_LocationsClient`.

    The remote calls (`post`, `get`, `get_by_signature`, `count`, `list`), the
    fixture merge `_deepmerge` and `selector_signature` are not part of this
    model; each operation takes them as function parameters. */
module Locations {
  import opened Outcomes
  import opened Json
  import Constants
  import Archivist

  /** A location record: a JSON object. */
  type Location = Object

  const DisplayName := "display_name"
  const Attributes := "attributes"
  const Selector := "selector"

  /** `Location.name`: the `display_name` entry, or nothing when it is missing. */
  function Name(loc: Location): (r: Option<Json>)
    ensures r == None <==> "display_name" !in loc
    ensures r.Some? ==> r.value == loc["display_name"]
  {
    if DisplayName in loc then Some(loc[DisplayName]) else None
  }

  /** `name` reads back what was stored under `display_name`, and no other entry affects it. */
  lemma NameReadsDisplayName(loc: Location, v: Json, key: string, w: Json)
    ensures Name(loc["display_name" := v]) == Some(v)
    ensures Name(loc - {"display_name"}) == None
    ensures key != "display_name" ==> Name(loc[key := w]) == Name(loc)
  {
  }

  /** The paths a `_LocationsClient` computes at construction. */
  datatype LocationsClient = LocationsClient(subpath: string, labelPath: string)

  /** `_LocationsClient.__init__`, for the client made by the registry of `a`. */
  function Open(a: Archivist.Archivist): (c: LocationsClient)
    ensures c.subpath == a.root + "/v2"
    ensures c.labelPath == c.subpath + "/locations"
    ensures Archivist.Valid(a) ==> c.labelPath == a.url + "/archivist/v2/locations"
  {
    var subpath := a.root + Constants.Sep + Constants.LocationsSubpath;
    LocationsClient(subpath, subpath + Constants.Sep + Constants.LocationsLabel)
  }

  /** `_LocationsClient.__str__`. */
  function Str(a: Archivist.Archivist): (r: string)
    ensures |r| == |a.url| + 17
    ensures r[..16] == "LocationsClient(" && r[|r| - 1] == ')'
    ensures r[16..|r| - 1] == a.url
  {
    "LocationsClient(" + a.url + ")"
  }

  /** The path `read(identity)` fetches. */
  function ReadPath(c: LocationsClient, identity: string): (p: string)
    ensures |p| == |c.subpath| + 1 + |identity|
    ensures p[..|c.subpath|] == c.subpath && p[|c.subpath|] == '/'
    ensures p[|c.subpath| + 1..] == identity
  {
    c.subpath + Constants.Sep + identity
  }

  /** Distinct identities are read from distinct paths, and every read path
      lies under the connection's `archivist/v2` root. */
  lemma ReadPathInjective(a: Archivist.Archivist, id1: string, id2: string)
    requires Archivist.Valid(a)
    ensures ReadPath(Open(a), id1) == ReadPath(Open(a), id2) <==> id1 == id2
    ensures ReadPath(Open(a), id1) == a.url + "/archivist/v2/" + id1
  {
    var c := Open(a);
    var p1, p2 := ReadPath(c, id1), ReadPath(c, id2);
    if p1 == p2 {
      calc {
        id1;
        p1[|c.subpath| + 1..];
        p2[|c.subpath| + 1..];
        id2;
      }
    }
    UnderRoot(a.url, a.root, id1);
  }

  lemma UnderRoot(url: string, root: string, identity: string)
    requires root == url + "/archivist"
    ensures root + "/" + "v2" + "/" + identity == url + "/archivist/v2/" + identity
  {
    assert "/archivist" + "/" + "v2" + "/" == "/archivist/v2/";
    calc {
      root + "/" + "v2" + "/" + identity;
      url + ("/archivist" + "/" + "v2" + "/") + identity;
    }
  }

  /** A JSON object is falsy in Python exactly when it is empty. */
  predicate Truthy(o: Option<Object>) {
    o.Some? && |o.value| > 0
  }

  /** `__params` before the fixture merge: a copy of `props` (or an empty
      object) with `attrs` stored under `attributes` when `attrs` is non-empty. */
  function BaseParams(props: Option<Object>, attrs: Option<Object>): (r: Object)
    ensures var given := if Truthy(props) then props.value else map[];
            && r.Keys == given.Keys + (if Truthy(attrs) then {"attributes"} else {})
            && (forall k :: k in given && (!Truthy(attrs) || k != "attributes") ==> r[k] == given[k])
            && (Truthy(attrs) ==> r["attributes"] == JObj(attrs.value))
  {
    var params := if Truthy(props) then props.value else map[];
    if Truthy(attrs) then params[Attributes := JObj(attrs.value)] else params
  }

  /** Building parameters from parameters already built with the same
      `attrs` gives them back, and without `attrs` the props pass through. */
  lemma BaseParamsStable(props: Option<Object>, attrs: Option<Object>)
    ensures BaseParams(Some(BaseParams(props, attrs)), attrs) == BaseParams(props, attrs)
    ensures !Truthy(attrs) && props.Some? ==> BaseParams(props, attrs) == props.value
  {
  }

  /** `_deepmerge(fixture, params)`. */
  type Merge = (Option<Json>, Object) -> Object

  /** `fixtures.get("locations")`. */
  function Fixture(fixtures: Object): (r: Option<Json>)
    ensures r.Some? <==> "locations" in fixtures
    ensures r.Some? ==> r.value == fixtures["locations"]
  {
    if Constants.LocationsLabel in fixtures then Some(fixtures[Constants.LocationsLabel]) else None
  }

  /** `_LocationsClient.__params`: the request parameters, merged over the
      connection's `locations` fixture. */
  function Params(a: Archivist.Archivist, merge: Merge, props: Option<Object>, attrs: Option<Object>): (r: Object)
    ensures "locations" !in a.fixtures ==> r == merge(None, BaseParams(props, attrs))
    ensures "locations" in a.fixtures ==> r == merge(Some(a.fixtures["locations"]), BaseParams(props, attrs))
  {
    merge(Fixture(a.fixtures), BaseParams(props, attrs))
  }

  /** `Archivist.post`: sends `body` to `path`. */
  type Post = (string, Object) -> Result<Object>

  /** `Archivist.get` on a path. */
  type Get = string -> Result<Object>

  /** `Archivist.get_by_signature(path, field, params)`. */
  type GetBySignature = (string, string, Object) -> Result<Object>

  /** `selector_signature(selector, data)`: the props and attrs to look up. */
  type Signature = (Json, Object) -> (Option<Object>, Option<Object>)

  /** `_LocationsClient.create_from_data`: posts `data` as it is to the
      collection path. */
  function CreateFromData(a: Archivist.Archivist, post: Post, data: Object): (r: Result<Location>)
    ensures Archivist.Valid(a) ==> r == post(a.url + "/archivist/v2/locations", data)
  {
    post(Open(a).labelPath, data)
  }

  /** `_LocationsClient.create`: posts the parameters built from `props` and `attrs`. */
  function Create(a: Archivist.Archivist, merge: Merge, post: Post, props: Object, attrs: Option<Object>)
    : (r: Result<Location>)
    ensures r == CreateFromData(a, post, Params(a, merge, Some(props), attrs))
    ensures Archivist.Valid(a) && "locations" !in a.fixtures ==>
              r == post(a.url + "/archivist/v2/locations", merge(None, BaseParams(Some(props), attrs)))
  {
    CreateFromData(a, post, Params(a, merge, Some(props), attrs))
  }

  /** `_LocationsClient.read`. */
  function Read(a: Archivist.Archivist, get: Get, identity: string): (r: Result<Location>)
    ensures Archivist.Valid(a) ==> r == get(a.url + "/archivist/v2/" + identity)
  {
    assert Archivist.Valid(a) ==> ReadPath(Open(a), identity) == a.url + "/archivist/v2/" + identity by {
      if Archivist.Valid(a) {
        ReadPathInjective(a, identity, identity);
      }
    }
    get(ReadPath(Open(a), identity))
  }

  /** `_LocationsClient.read_by_signature`. */
  function ReadBySignature(a: Archivist.Archivist, merge: Merge, lookup: GetBySignature,
                           props: Option<Object>, attrs: Option<Object>): (r: Result<Location>)
    ensures Archivist.Valid(a) ==>
              r == lookup(a.url + "/archivist/v2/locations", "locations", Params(a, merge, props, attrs))
  {
    lookup(Open(a).labelPath, Constants.LocationsLabel, Params(a, merge, props, attrs))
  }

  /** `Archivist.count(path, params=...)`. */
  type Count = (string, Object) -> Result<int>

  /** `Archivist.list(path, field, page_size=..., params=...)`, with the lazy
      page-by-page iteration collapsed into one sequence. */
  type List = (string, string, Option<int>, Object) -> Result<seq<Object>>

  /** `_LocationsClient.count`. */
  function CountLocations(a: Archivist.Archivist, merge: Merge, count: Count,
                          props: Option<Object>, attrs: Option<Object>): (r: Result<int>)
    ensures Archivist.Valid(a) ==>
              r == count(a.url + "/archivist/v2/locations", Params(a, merge, props, attrs))
  {
    count(Open(a).labelPath, Params(a, merge, props, attrs))
  }

  /** `_LocationsClient.list`. */
  function ListLocations(a: Archivist.Archivist, merge: Merge, list: List, pageSize: Option<int>,
                         props: Option<Object>, attrs: Option<Object>): (r: Result<seq<Location>>)
    ensures Archivist.Valid(a) ==>
              r == list(a.url + "/archivist/v2/locations", "locations", pageSize, Params(a, merge, props, attrs))
  {
    list(Open(a).labelPath, Constants.LocationsLabel, pageSize, Params(a, merge, props, attrs))
  }

  /** What `create_if_not_exists` returns: the location and whether it existed. */
  datatype Found = Found(location: Location, existed: bool)

  /** `_LocationsClient.create_if_not_exists`. */
  function CreateIfNotExists(a: Archivist.Archivist, merge: Merge, signature: Signature,
                             lookup: GetBySignature, post: Post, data: Object): (r: Result<Found>)
    ensures "selector" !in data ==> r == Err(KeyError("selector"))
    ensures "selector" in data ==>
              var body := data - {"selector"};
              var (props, attrs) := signature(data["selector"], body);
              var existing := ReadBySignature(a, merge, lookup, props, attrs);
              && (existing.Ok? ==> r == Ok(Found(existing.value, true)))
              && (existing.Err? && !existing.error.NotFound? ==> r == Err(existing.error))
              && (existing.Err? && existing.error.NotFound? ==>
                    var created := CreateFromData(a, post, body);
                    && (created.Ok? ==> r == Ok(Found(created.value, false)))
                    && (created.Err? ==> r == Err(created.error)))
  {
    if Selector !in data then
      Err(KeyError(Selector))
    else
      var body := data - {Selector};
      var (props, attrs) := signature(data[Selector], body);
      match ReadBySignature(a, merge, lookup, props, attrs)
      case Ok(location) => Ok(Found(location, true))
      case Err(NotFound(_)) =>
        var created :- CreateFromData(a, post, body);
        Ok(Found(created, false))
      case Err(e) => Err(e)
  }

  /** Creation happens only when the lookup reports "not found": in every other
      case the result does not depend on what posting would do. */
  lemma CreatesOnlyWhenNotFound(a: Archivist.Archivist, merge: Merge, signature: Signature,
                                lookup: GetBySignature, post1: Post, post2: Post, data: Object)
    requires "selector" in data
    requires var (props, attrs) := signature(data["selector"], data - {"selector"});
             var existing := ReadBySignature(a, merge, lookup, props, attrs);
             !(existing.Err? && existing.error.NotFound?)
    ensures CreateIfNotExists(a, merge, signature, lookup, post1, data)
         == CreateIfNotExists(a, merge, signature, lookup, post2, data)
  {
  }

  /** Against a server that answers a post with the body it received, a
      location that does not exist yet comes back as the caller's data with
      every entry but `selector`. */
  lemma CreatedFromDataWithoutSelector(a: Archivist.Archivist, merge: Merge, signature: Signature,
                                       lookup: GetBySignature, data: Object)
    requires "selector" in data
    requires var (props, attrs) := signature(data["selector"], data - {"selector"});
             var existing := ReadBySignature(a, merge, lookup, props, attrs);
             existing.Err? && existing.error.NotFound?
    ensures var r := CreateIfNotExists(a, merge, signature, lookup, (path, body) => Ok(body), data);
            && r.Ok? && !r.value.existed
            && r.value.location.Keys == data.Keys - {"selector"}
            && (forall k :: k in r.value.location ==> r.value.location[k] == data[k])
  {
  }
}
