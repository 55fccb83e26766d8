/**
  The listing search of the publications endpoint: the registry of request arguments,
  the parse that binds them, and the handler that validates the distance triple,
  folds every stored argument into a conjunctive query and adds the distance
  predicate.
 */
module Search {
  import opened Wrappers
  import opened Models
  import opened Queries
  import opened Utils

  /** What a registered argument is, as a value: a filter, or a plain float. */
  datatype ArgKind = FilterKind(spec: FilterSpec) | FloatKind

  /** A registered argument: its name, kind, default, and whether a missing value is
      still stored (as the default, or None). */
  datatype ArgSpec = ArgSpec(name: string, kind: ArgKind, default: Option<Value>, storeMissing: bool)

  /** The `type` of a registered argument: a filter object, or `float`. */
  datatype ArgType = FilterType(param: FilterParam) | FloatType

  /** A registered argument of the parser. */
  datatype Argument = Argument(name: string, argType: ArgType, default: Option<Value>, storeMissing: bool)

  function SpecOf(a: Argument): (r: ArgSpec)
  {
    ArgSpec(a.name, if a.argType.FilterType? then FilterKind(a.argType.param.Spec()) else FloatKind,
            a.default, a.storeMissing)
  }

  function Specs(args: seq<Argument>): (r: seq<ArgSpec>)
    ensures |r| == |args|
  {
    seq(|args|, k requires 0 <= k < |args| => SpecOf(args[k]))
  }

  /** The arguments of the listing parser, in registration order. */
  function PublicationArguments(): (r: seq<ArgSpec>)
  {
    [ ArgSpec("bathrooms", FilterKind(FilterSpec(Ge, Bathrooms, Identity)), None, false),
      ArgSpec("rooms", FilterKind(FilterSpec(Ge, Rooms, Identity)), None, false),
      ArgSpec("beds", FilterKind(FilterSpec(Ge, Beds, Identity)), None, false),
      ArgSpec("price_per_night_min", FilterKind(FilterSpec(Ge, PricePerNight, Identity)), None, false),
      ArgSpec("price_per_night_max", FilterKind(FilterSpec(Le, PricePerNight, Identity)), None, false),
      ArgSpec("user_id", FilterKind(FilterSpec(Eq, UserId, Identity)), None, false),
      ArgSpec("blockchain_status", FilterKind(FilterSpec(Eq, Status, Identity)),
              Some(Text(StatusValue(CONFIRMED))), true),
      ArgSpec("starring_user_id", FilterKind(FilterSpec(Eq, StarsUserId, Identity)), None, false),
      ArgSpec("blockchain_transaction_hash", FilterKind(FilterSpec(Eq, TransactionHash, Identity)), None, false),
      ArgSpec("latitude", FloatKind, None, true),
      ArgSpec("longitude", FloatKind, None, true),
      ArgSpec("max_distance", FloatKind, None, true),
      ArgSpec("filter_blocked", FilterKind(FilterSpec(Conditional, Blocked, BoolLiteral)), Some(Text("true")), true) ]
  }

  predicate DistinctNames(specs: seq<ArgSpec>)
  {
    forall i, j :: 0 <= i < j < |specs| ==> specs[i].name != specs[j].name
  }

  /** No filter object is registered twice. */
  predicate DistinctObjects(args: seq<Argument>)
  {
    forall i, j ::
      0 <= i < |args| && 0 <= j < |args| && i != j && args[i].argType.FilterType? && args[j].argType.FilterType?
      ==> args[i].argType.param != args[j].argType.param
  }

  function FilterObjects(args: seq<Argument>): (r: set<FilterParam>)
  {
    set k | 0 <= k < |args| && args[k].argType.FilterType? :: args[k].argType.param
  }

  /** `args` is the listing parser: its registrations, each with its own filter object. */
  predicate IsPublicationParser(args: seq<Argument>)
  {
    Specs(args) == PublicationArguments() && DistinctObjects(args)
  }

  /** Building the listing parser: thirteen registrations, ten of them with a new,
      unbound filter object. */
  method NewPublicationParser() returns (args: seq<Argument>)
    ensures IsPublicationParser(args)
    ensures forall f :: f in FilterObjects(args) ==> fresh(f) && f.val == None
  {
    var bathrooms := new FilterParam("bathrooms", Ge, Bathrooms, Identity);
    var rooms := new FilterParam("rooms", Ge, Rooms, Identity);
    var beds := new FilterParam("beds", Ge, Beds, Identity);
    var priceMin := new FilterParam("price_per_night_min", Ge, PricePerNight, Identity);
    var priceMax := new FilterParam("price_per_night_max", Le, PricePerNight, Identity);
    var userId := new FilterParam("user_id", Eq, UserId, Identity);
    var status := new FilterParam("blockchain_status", Eq, Status, Identity);
    var starring := new FilterParam("starring_user_id", Eq, StarsUserId, Identity);
    var hash := new FilterParam("blockchain_transaction_hash", Eq, TransactionHash, Identity);
    var blocked := new FilterParam("filter_blocked", Conditional, Blocked, BoolLiteral);
    args := [
      Argument("bathrooms", FilterType(bathrooms), None, false),
      Argument("rooms", FilterType(rooms), None, false),
      Argument("beds", FilterType(beds), None, false),
      Argument("price_per_night_min", FilterType(priceMin), None, false),
      Argument("price_per_night_max", FilterType(priceMax), None, false),
      Argument("user_id", FilterType(userId), None, false),
      Argument("blockchain_status", FilterType(status), Some(Text(StatusValue(CONFIRMED))), true),
      Argument("starring_user_id", FilterType(starring), None, false),
      Argument("blockchain_transaction_hash", FilterType(hash), None, false),
      Argument("latitude", FloatType, None, true),
      Argument("longitude", FloatType, None, true),
      Argument("max_distance", FloatType, None, true),
      Argument("filter_blocked", FilterType(blocked), Some(Text("true")), true)];
  }

  /**
    What parsing stores for one argument. A missing argument stored with no default is
    None (`Absent`); `NotStored` marks an argument that is not among the parsed items
    at all. A present filter argument is stored as its (bound) filter object; a
    default is stored raw, without passing through the argument's type.
   */
  datatype Entry = NotStored | Absent | Raw(value: Value) | Filter(param: FilterParam)

  function EntryFor(a: Argument, request: map<string, Value>): (r: Entry)
  {
    if a.name in request then
      (if a.argType.FilterType? then Filter(a.argType.param) else Raw(request[a.name]))
    else if !a.storeMissing then NotStored
    else if a.default.None? then Absent
    else Raw(a.default.value)
  }

  /** Parsing succeeds unless a float argument is given a value that is not a number. */
  predicate ParseOk(specs: seq<ArgSpec>, request: map<string, Value>)
  {
    forall k :: 0 <= k < |specs| && specs[k].kind.FloatKind? && specs[k].name in request ==>
      request[specs[k].name].Num?
  }

  /** Every filter object of an argument present in the request is bound to its value. */
  ghost predicate Bound(args: seq<Argument>, request: map<string, Value>)
    reads FilterObjects(args)
  {
    forall k :: 0 <= k < |args| && args[k].argType.FilterType? && args[k].name in request ==>
      args[k].argType.param in FilterObjects(args) &&
      args[k].argType.param.val == Some(request[args[k].name])
  }

  /** `parse_args()`: each argument in registration order; a present filter argument
      calls its filter object with the value. */
  method ParseArgs(args: seq<Argument>, request: map<string, Value>) returns (params: seq<Entry>, ok: bool)
    requires DistinctObjects(args)
    modifies FilterObjects(args)
    ensures ok == ParseOk(Specs(args), request)
    ensures ok ==> |params| == |args| && forall k :: 0 <= k < |args| ==> params[k] == EntryFor(args[k], request)
    ensures ok ==> Bound(args, request)
  {
    params := [];
    var i := 0;
    while i < |args|
      invariant 0 <= i <= |args| && |params| == i
      invariant forall k :: 0 <= k < i ==> params[k] == EntryFor(args[k], request)
      invariant forall k :: 0 <= k < i && args[k].argType.FloatType? && args[k].name in request ==>
        request[args[k].name].Num?
      invariant forall k :: 0 <= k < i && args[k].argType.FilterType? && args[k].name in request ==>
        args[k].argType.param.val == Some(request[args[k].name])
    {
      var a := args[i];
      if a.name in request {
        match a.argType
        case FilterType(f) =>
          assert f in FilterObjects(args);
          var bound := f.Call(request[a.name]);
          params := params + [Filter(bound)];
        case FloatType =>
          if !request[a.name].Num? {
            assert Specs(args)[i].kind.FloatKind?;
            return [], false;
          }
          params := params + [Raw(request[a.name])];
      } else if !a.storeMissing {
        params := params + [NotStored];
      } else if a.default.None? {
        params := params + [Absent];
      } else {
        params := params + [Raw(a.default.value)];
      }
      i := i + 1;
    }
    ok := true;
    assert forall k :: 0 <= k < |args| ==> Specs(args)[k] == SpecOf(args[k]);
  }

  /** The first registered argument with the given name, as the handler's search of
      the parser's arguments finds it. */
  method FindArgument(args: seq<Argument>, name: string) returns (r: Option<nat>)
    ensures r.Some? ==> r.value < |args| && args[r.value].name == name
    ensures r.Some? ==> forall j :: 0 <= j < r.value ==> args[j].name != name
    ensures r.None? ==> forall j :: 0 <= j < |args| ==> args[j].name != name
  {
    var k := 0;
    while k < |args|
      invariant 0 <= k <= |args|
      invariant forall j :: 0 <= j < k ==> args[j].name != name
    {
      if args[k].name == name {
        return Some(k);
      }
      k := k + 1;
    }
    return None;
  }

  /** What the fold does with one argument's stored value. */
  datatype Step = Skip | Narrow(c: Constraint) | Crash

  /**
    The fold step of one argument, as the handler is written: a stored None is skipped;
    a filter object, present or re-created from the raw default through the argument's
    type, narrows the query; a raw float is re-typed to a float, and calling `apply`
    on it fails.
   */
  function StepFor(s: ArgSpec, request: map<string, Value>): (r: Step)
  {
    if s.name in request then
      (if s.kind.FilterKind? then Narrow(ConstraintOf(s.kind.spec, Some(request[s.name]))) else Crash)
    else if !s.storeMissing || s.default.None? then Skip
    else if s.kind.FilterKind? then Narrow(ConstraintOf(s.kind.spec, s.default))
    else Crash
  }

  function Steps(specs: seq<ArgSpec>, request: map<string, Value>): (r: seq<Step>)
    ensures |r| == |specs|
  {
    seq(|specs|, k requires 0 <= k < |specs| => StepFor(specs[k], request))
  }

  /** Folding steps left to right into a query; `None` once a step fails. */
  function Compose(steps: seq<Step>): (r: Option<Query>)
  {
    if |steps| == 0 then Some(Query([]))
    else
      match Compose(steps[..|steps| - 1])
      case None => None
      case Some(q) =>
        match steps[|steps| - 1]
        case Skip => Some(q)
        case Narrow(c) => Some(q.Filter(c))
        case Crash => None
  }

  lemma {:induction false} ComposeFailureSticks(steps: seq<Step>, i: nat)
    requires i <= |steps| && Compose(steps[..i]) == None
    ensures Compose(steps) == None
    decreases |steps| - i
  {
    if i < |steps| {
      assert steps[..i + 1][..i] == steps[..i];
      ComposeFailureSticks(steps, i + 1);
    } else {
      assert steps[..i] == steps;
    }
  }

  /** The fold over the parsed items (`for filter_name, filter_op in params.items()`). */
  method Fold(args: seq<Argument>, params: seq<Entry>, ghost request: map<string, Value>) returns (q: Option<Query>)
    requires |params| == |args| && forall k :: 0 <= k < |args| ==> params[k] == EntryFor(args[k], request)
    requires DistinctNames(Specs(args)) && DistinctObjects(args) && Bound(args, request)
    modifies FilterObjects(args)
    ensures q == Compose(Steps(Specs(args), request))
  {
    ghost var steps := Steps(Specs(args), request);
    var query := Query([]);
    var i := 0;
    while i < |params|
      invariant 0 <= i <= |params|
      invariant Compose(steps[..i]) == Some(query)
      invariant Bound(args, request)
    {
      assert steps[..i + 1][..i] == steps[..i];
      assert steps[i] == StepFor(SpecOf(args[i]), request);
      match params[i] {
        case NotStored =>
        case Absent =>
        case Filter(f) =>
          query := f.Apply(query);
        case Raw(v) =>
          var found := FindArgument(args, args[i].name);
          assert found == Some(i) by {
            assert forall k :: 0 <= k < |args| ==> Specs(args)[k].name == args[k].name;
          }
          match args[found.value].argType {
            case FilterType(g) =>
              assert g in FilterObjects(args);
              var typed := g.Call(v);
              query := typed.Apply(query);
            case FloatType =>
              ComposeFailureSticks(steps, i + 1);
              return None;
          }
      }
      i := i + 1;
    }
    assert steps[..i] == steps;
    q := Some(query);
  }

  /** The fold with a raw value whose registered type is not a filter skipped. */
  method FoldFixed(args: seq<Argument>, params: seq<Entry>, ghost request: map<string, Value>) returns (q: Option<Query>)
    requires |params| == |args| && forall k :: 0 <= k < |args| ==> params[k] == EntryFor(args[k], request)
    requires DistinctNames(Specs(args)) && DistinctObjects(args) && Bound(args, request)
    modifies FilterObjects(args)
    ensures q == Compose(FixedSteps(Specs(args), request))
  {
    ghost var steps := FixedSteps(Specs(args), request);
    var query := Query([]);
    var i := 0;
    while i < |params|
      invariant 0 <= i <= |params|
      invariant Compose(steps[..i]) == Some(query)
      invariant Bound(args, request)
    {
      assert steps[..i + 1][..i] == steps[..i];
      assert steps[i] == FixedStepFor(SpecOf(args[i]), request);
      match params[i] {
        case NotStored =>
        case Absent =>
        case Filter(f) =>
          query := f.Apply(query);
        case Raw(v) =>
          var found := FindArgument(args, args[i].name);
          assert found == Some(i) by {
            assert forall k :: 0 <= k < |args| ==> Specs(args)[k].name == args[k].name;
          }
          match args[found.value].argType {
            case FilterType(g) =>
              assert g in FilterObjects(args);
              var typed := g.Call(v);
              query := typed.Apply(query);
            case FloatType =>
          }
      }
      i := i + 1;
    }
    assert steps[..i] == steps;
    q := Some(query);
  }

  /** The registered names are pairwise distinct: only "bathrooms" and "longitude",
      and the two price bounds, share a length. */
  lemma ArgumentNamesDistinct()
    ensures DistinctNames(PublicationArguments())
  {
    var specs := PublicationArguments();
    forall i, j | 0 <= i < j < |specs|
      ensures specs[i].name != specs[j].name
    {
      if |specs[i].name| == |specs[j].name| {
        assert (i == 0 && j == 10) || (i == 3 && j == 4);
        assert specs[i].name[0] != specs[j].name[0] || specs[i].name[17] != specs[j].name[17];
      }
    }
  }

  /** What the listing parser's registrations imply about its argument sequence. */
  lemma ParserShape(args: seq<Argument>)
    requires IsPublicationParser(args)
    ensures |args| == 13 && DistinctNames(Specs(args))
    ensures forall i, j :: 0 <= i < |args| && 0 <= j < |args| && i != j ==> args[i].name != args[j].name
    ensures args[9].name == "latitude" && args[10].name == "longitude" && args[11].name == "max_distance"
    ensures forall k :: 9 <= k < 12 ==>
      args[k].argType.FloatType? && args[k].storeMissing && args[k].default.None?
  {
    assert forall k :: 0 <= k < |args| ==> Specs(args)[k] == SpecOf(args[k]);
    ArgumentNamesDistinct();
    var specs := PublicationArguments();
    assert specs[9].name == "latitude" && specs[10].name == "longitude" && specs[11].name == "max_distance";
    forall i, j | 0 <= i < |args| && 0 <= j < |args| && i != j
      ensures args[i].name != args[j].name
    {
      if i < j {
        assert specs[i].name != specs[j].name;
      } else {
        assert specs[j].name != specs[i].name;
      }
    }
  }

  /** Python truthiness of the stored `max_distance`: a non-zero number. */
  predicate Truthy(e: Entry)
  {
    e.Raw? && e.value.Num? && e.value.n != 0.0
  }

  /** What parsing stores for latitude, longitude and max_distance: the value, or None. */
  function GeoEntry(request: map<string, Value>, name: string): (r: Entry)
  {
    if name in request then Raw(request[name]) else Absent
  }

  /** Whether the request holds some but not all of latitude, longitude, max_distance. */
  predicate GeoPartial(request: map<string, Value>)
  {
    var hasLat, hasLon, hasDist := "latitude" in request, "longitude" in request, "max_distance" in request;
    (hasLat || hasLon || hasDist) && !(hasLat && hasLon && hasDist)
  }

  /** The distance arguments passed parsing (each given one is a number) and the
      triple check. */
  predicate GeoValid(request: map<string, Value>)
  {
    && !GeoPartial(request)
    && ("latitude" in request ==> request["latitude"].Num?)
    && ("longitude" in request ==> request["longitude"].Num?)
    && ("max_distance" in request ==> request["max_distance"].Num?)
  }

  /** Whether the distance predicate is added: a non-zero max_distance, with both
      coordinates numbers. */
  predicate GeoActive(request: map<string, Value>)
  {
    && "latitude" in request && request["latitude"].Num?
    && "longitude" in request && request["longitude"].Num?
    && "max_distance" in request && request["max_distance"].Num?
    && request["max_distance"].n != 0.0
  }

  /** The distance predicate: within max_distance kilometres, i.e. max_distance * 1000
      metres, of the requested point. */
  function DistanceConstraint(request: map<string, Value>): (r: Constraint)
    requires GeoActive(request)
  {
    Within(Point(request["latitude"].n, request["longitude"].n), request["max_distance"].n * 1000.0)
  }

  function WithDistance(q: Query, request: map<string, Value>): (r: Query)
  {
    if GeoActive(request) then q.Filter(DistanceConstraint(request)) else q
  }

  /** The outcome of a listing request, as the handler is written. */
  function Expected(request: map<string, Value>, base: seq<Publication>, stars: seq<Star>,
                    dist: (Point, Point) -> real): (r: Result<seq<Publication>, Error>)
  {
    var specs := PublicationArguments();
    if !ParseOk(specs, request) then Failure(BadRequest)
    else if GeoPartial(request) then Failure(DistanceFilterMissingParameters)
    else
      match Compose(Steps(specs, request))
      case None => Failure(AttributeError)
      case Some(q) => Success(Run(WithDistance(q, request).constraints, base, stars, dist))
  }

  /** The fold step with the re-typing kept for filter arguments (whose defaults are
      stored raw) and a raw value whose type is not a filter skipped, as the
      starrings handler of the same file skips every value that is not a filter. */
  function FixedStepFor(s: ArgSpec, request: map<string, Value>): (r: Step)
  {
    if s.kind.FloatKind? then Skip else StepFor(s, request)
  }

  function FixedSteps(specs: seq<ArgSpec>, request: map<string, Value>): (r: seq<Step>)
    ensures |r| == |specs|
  {
    seq(|specs|, k requires 0 <= k < |specs| => FixedStepFor(specs[k], request))
  }

  /** The outcome of a listing request with the fold corrected. */
  function ExpectedFixed(request: map<string, Value>, base: seq<Publication>, stars: seq<Star>,
                         dist: (Point, Point) -> real): (r: Result<seq<Publication>, Error>)
  {
    var specs := PublicationArguments();
    if !ParseOk(specs, request) then Failure(BadRequest)
    else if GeoPartial(request) then Failure(DistanceFilterMissingParameters)
    else
      match Compose(FixedSteps(specs, request))
      case None => Failure(AttributeError)
      case Some(q) => Success(Run(WithDistance(q, request).constraints, base, stars, dist))
  }

  /** A request that parsed and passed the triple check satisfies `GeoValid`. */
  lemma GeoParsed(args: seq<Argument>, request: map<string, Value>)
    requires IsPublicationParser(args) && ParseOk(Specs(args), request) && !GeoPartial(request)
    ensures GeoValid(request)
  {
    var specs := PublicationArguments();
    assert specs[9].name == "latitude" && specs[9].kind.FloatKind?;
    assert specs[10].name == "longitude" && specs[10].kind.FloatKind?;
    assert specs[11].name == "max_distance" && specs[11].kind.FloatKind?;
  }

  /** The stored latitude, longitude and max_distance (`params.latitude` and so on). */
  method GeoParams(args: seq<Argument>, params: seq<Entry>, ghost request: map<string, Value>)
    returns (lat: Entry, lon: Entry, maxDistance: Entry)
    requires IsPublicationParser(args)
    requires |params| == |args| && forall k :: 0 <= k < |args| ==> params[k] == EntryFor(args[k], request)
    ensures lat == GeoEntry(request, "latitude") && lon == GeoEntry(request, "longitude")
    ensures maxDistance == GeoEntry(request, "max_distance")
  {
    ParserShape(args);
    var iLat := FindArgument(args, "latitude");
    var iLon := FindArgument(args, "longitude");
    var iDist := FindArgument(args, "max_distance");
    assert iLat == Some(9) && iLon == Some(10) && iDist == Some(11);
    lat, lon, maxDistance := params[iLat.value], params[iLon.value], params[iDist.value];
  }

  /** `if params.max_distance:` the query gets the distance predicate around
      POINT(latitude longitude), with the radius converted from kilometres to metres. */
  method AddDistance(query: Query, lat: Entry, lon: Entry, maxDistance: Entry, ghost request: map<string, Value>)
    returns (q: Query)
    requires GeoValid(request)
    requires lat == GeoEntry(request, "latitude") && lon == GeoEntry(request, "longitude")
    requires maxDistance == GeoEntry(request, "max_distance")
    ensures q == WithDistance(query, request)
  {
    q := query;
    if Truthy(maxDistance) {
      q := q.Filter(Within(Point(lat.value.n, lon.value.n), maxDistance.value.n * 1000.0));
    }
  }

  /** `PublicationsResource.get`, as written: parse, validate the distance triple before
      any filter is applied, fold the parsed items, add the distance predicate when
      max_distance is truthy, and run the query. */
  method Get(args: seq<Argument>, request: map<string, Value>, base: seq<Publication>, stars: seq<Star>,
             dist: (Point, Point) -> real) returns (r: Result<seq<Publication>, Error>)
    requires IsPublicationParser(args)
    modifies FilterObjects(args)
    ensures r == Expected(request, base, stars, dist)
  {
    var params, ok := ParseArgs(args, request);
    if !ok {
      return Failure(BadRequest);
    }
    var lat, lon, maxDistance := GeoParams(args, params, request);
    var hasLat, hasLon, hasDist := lat != Absent, lon != Absent, maxDistance != Absent;
    if (hasLat || hasLon || hasDist) && !(hasLat && hasLon && hasDist) {
      return Failure(DistanceFilterMissingParameters);
    }
    ParserShape(args);
    GeoParsed(args, request);
    var folded := Fold(args, params, request);
    if folded.None? {
      return Failure(AttributeError);
    }
    var query := AddDistance(folded.value, lat, lon, maxDistance, request);
    return Success(Run(query.constraints, base, stars, dist));
  }

  /** The listing handler with the corrected fold. */
  method GetFixed(args: seq<Argument>, request: map<string, Value>, base: seq<Publication>, stars: seq<Star>,
                  dist: (Point, Point) -> real) returns (r: Result<seq<Publication>, Error>)
    requires IsPublicationParser(args)
    modifies FilterObjects(args)
    ensures r == ExpectedFixed(request, base, stars, dist)
  {
    var params, ok := ParseArgs(args, request);
    if !ok {
      return Failure(BadRequest);
    }
    var lat, lon, maxDistance := GeoParams(args, params, request);
    var hasLat, hasLon, hasDist := lat != Absent, lon != Absent, maxDistance != Absent;
    if (hasLat || hasLon || hasDist) && !(hasLat && hasLon && hasDist) {
      return Failure(DistanceFilterMissingParameters);
    }
    ParserShape(args);
    GeoParsed(args, request);
    var folded := FoldFixed(args, params, request);
    if folded.None? {
      return Failure(AttributeError);
    }
    var query := AddDistance(folded.value, lat, lon, maxDistance, request);
    return Success(Run(query.constraints, base, stars, dist));
  }
}
