/**
  What a listing request returns, stated field by field against the publication row
  and proved of the handler's outcome: the distance-triple validation, the defaults of
  `blockchain_status` and `filter_blocked`, the any-star semantics of
  `starring_user_id`, and the failure of every request that carries the distance
  arguments, with the corrected fold for comparison.
 */
module SearchProperties {
  import opened Wrappers
  import opened Models
  import opened Queries
  import opened Utils
  import opened Search

  /** The constraints the narrowing steps add, in order. */
  function Narrowed(steps: seq<Step>): (r: seq<Constraint>)
  {
    if |steps| == 0 then []
    else Narrowed(steps[..|steps| - 1]) + (if steps[|steps| - 1].Narrow? then [steps[|steps| - 1].c] else [])
  }

  /** Without a failing step the fold succeeds, and its constraints are exactly those of
      the narrowing steps. */
  lemma {:induction false} ComposeWithoutCrash(steps: seq<Step>)
    requires forall k :: 0 <= k < |steps| ==> !steps[k].Crash?
    ensures Compose(steps) == Some(Query(Narrowed(steps)))
    ensures forall c :: c in Narrowed(steps) <==> exists k :: 0 <= k < |steps| && steps[k] == Narrow(c)
  {
    if |steps| > 0 {
      var init := steps[..|steps| - 1];
      assert forall k :: 0 <= k < |init| ==> init[k] == steps[k];
      ComposeWithoutCrash(init);
      var last := steps[|steps| - 1];
      assert !last.Crash?;
      if last.Narrow? {
        assert Narrowed(steps) == Narrowed(init) + [last.c];
      } else {
        assert Narrowed(steps) == Narrowed(init) + [];
        assert Narrowed(init) + [] == Narrowed(init);
      }
      forall c | c in Narrowed(steps)
        ensures exists k :: 0 <= k < |steps| && steps[k] == Narrow(c)
      {
        if c in Narrowed(init) {
          var k :| 0 <= k < |init| && init[k] == Narrow(c);
          assert steps[k] == Narrow(c);
        } else {
          assert steps[|steps| - 1] == Narrow(c);
        }
      }
      forall c, k | 0 <= k < |steps| && steps[k] == Narrow(c)
        ensures c in Narrowed(steps)
      {
        if k < |init| {
          assert init[k] == Narrow(c);
        }
      }
    }
  }

  /** One failing step makes the whole fold fail. */
  lemma {:induction false} ComposeCrash(steps: seq<Step>, i: nat)
    requires i < |steps| && steps[i].Crash?
    ensures Compose(steps) == None
  {
    var pre := steps[..i + 1];
    assert pre[..|pre| - 1] == steps[..i];
    assert pre[|pre| - 1] == steps[i];
    ComposeFailureSticks(steps, i + 1);
  }

  /** Whether a step lets row `p` through. */
  predicate Admits(st: Step, p: Publication, stars: seq<Star>, dist: (Point, Point) -> real)
  {
    st.Narrow? ==> Holds(st.c, p, stars, dist)
  }

  /** A row satisfies the narrowed constraints exactly when every step admits it. */
  lemma NarrowedHolds(steps: seq<Step>, p: Publication, stars: seq<Star>, dist: (Point, Point) -> real)
    requires forall k :: 0 <= k < |steps| ==> !steps[k].Crash?
    ensures HoldsAll(Narrowed(steps), p, stars, dist) <==>
      forall k :: 0 <= k < |steps| ==> Admits(steps[k], p, stars, dist)
  {
    ComposeWithoutCrash(steps);
    if HoldsAll(Narrowed(steps), p, stars, dist) {
      forall k | 0 <= k < |steps|
        ensures Admits(steps[k], p, stars, dist)
      {
        if steps[k].Narrow? {
          assert steps[k].c in Narrowed(steps);
        }
      }
    }
  }

  // ---------------------------------------------------------------------------
  // The listing, field by field
  // ---------------------------------------------------------------------------

  function IntReal(x: Option<int>): (r: Option<real>)
  {
    if x.Some? then Some(x.value as real) else None
  }

  /** A lower bound on a nullable numeric column: when the argument is given, the
      column is not NULL and at least the given number. */
  predicate LowerBound(request: map<string, Value>, name: string, x: Option<real>)
  {
    name in request ==> x.Some? && request[name].Num? && x.value >= request[name].n
  }

  predicate UpperBound(request: map<string, Value>, name: string, x: Option<real>)
  {
    name in request ==> x.Some? && request[name].Num? && x.value <= request[name].n
  }

  /** The status asked for: the given one, or "CONFIRMED". */
  function StatusArgument(request: map<string, Value>): (r: Value)
  {
    if "blockchain_status" in request then request["blockchain_status"] else Text(StatusValue(CONFIRMED))
  }

  /** The blocked filter asked for: the given string, or "true". */
  function BlockedArgument(request: map<string, Value>): (r: Value)
  {
    if "filter_blocked" in request then request["filter_blocked"] else Text("true")
  }

  /** Whether publication `p` answers the listing request: every filter argument, and
      the distance. */
  predicate SearchMatches(request: map<string, Value>, p: Publication, stars: seq<Star>, dist: (Point, Point) -> real)
  {
    FieldsMatch(request, p, stars) && DistanceMatches(request, p, dist)
  }

  /** Whether `p` lies within max_distance kilometres of the requested point, when
      the distance predicate is active. */
  predicate DistanceMatches(request: map<string, Value>, p: Publication, dist: (Point, Point) -> real)
  {
    GeoActive(request) ==>
      dist(p.loc, Point(request["latitude"].n, request["longitude"].n)) <= request["max_distance"].n * 1000.0
  }

  /** Whether publication `p` answers each filter argument of the request (given or
      defaulted). */
  predicate FieldsMatch(request: map<string, Value>, p: Publication, stars: seq<Star>)
  {
    && LowerBound(request, "bathrooms", IntReal(p.bathrooms))
    && LowerBound(request, "rooms", IntReal(p.rooms))
    && LowerBound(request, "beds", IntReal(p.beds))
    && LowerBound(request, "price_per_night_min", p.pricePerNight)
    && UpperBound(request, "price_per_night_max", p.pricePerNight)
    && ("user_id" in request ==> request["user_id"] == Num(p.userId as real))
    && StatusArgument(request) == Text(StatusValue(p.blockchainStatus))
    && ("starring_user_id" in request ==>
          exists k :: 0 <= k < |stars| && stars[k].publicationId == p.id &&
            request["starring_user_id"] == Num(stars[k].userId as real))
    && ("blockchain_transaction_hash" in request ==>
          p.blockchainTransactionHash.Some? &&
          request["blockchain_transaction_hash"] == Text(p.blockchainTransactionHash.value))
    && (BlockedArgument(request) == Text("true") ==> p.blocked == Some(false))
  }

  lemma GeSingle(x: Option<Value>, v: Option<Value>)
    ensures Matches(Ge, [x], v) <==> AtLeast(x, v)
  {
    assert [x][0] == x;
  }

  lemma LeSingle(x: Option<Value>, v: Option<Value>)
    ensures Matches(Le, [x], v) <==> AtMost(x, v)
  {
    assert [x][0] == x;
  }

  /** The step of a filter argument without a transform and without a stored default:
      when given, its comparison must hold. */
  lemma AdmitsPlainFilter(s: ArgSpec, request: map<string, Value>, p: Publication, stars: seq<Star>,
                          dist: (Point, Point) -> real)
    requires s.kind.FilterKind? && s.kind.spec.transform.Identity? && !s.storeMissing
    ensures Admits(FixedStepFor(s, request), p, stars, dist) <==>
      (s.name in request ==> Matches(s.kind.spec.op, Column(p, s.kind.spec.attribute, stars), Some(request[s.name])))
  {
  }

  /** The step of a filter argument with a stored default: the given value or the
      default is compared. */
  lemma AdmitsDefaultedFilter(s: ArgSpec, request: map<string, Value>, p: Publication, stars: seq<Star>,
                              dist: (Point, Point) -> real)
    requires s.kind.FilterKind? && s.storeMissing && s.default.Some?
    ensures Admits(FixedStepFor(s, request), p, stars, dist) <==>
      Matches(s.kind.spec.op, Column(p, s.kind.spec.attribute, stars),
              Transformed(s.kind.spec.transform, Some(if s.name in request then request[s.name] else s.default.value)))
  {
  }

  lemma FixedStepsAt(request: map<string, Value>)
    ensures |FixedSteps(PublicationArguments(), request)| == 13
    ensures forall k :: 0 <= k < 13 ==>
      FixedSteps(PublicationArguments(), request)[k] == FixedStepFor(PublicationArguments()[k], request)
  {
  }

  /** A numeric column as the query sees it. */
  function NumColumn(x: Option<real>): (r: Option<Value>)
  {
    if x.Some? then Some(Num(x.value)) else None
  }

  /** The step of a lower-bound argument. */
  lemma LowerBoundMeaning(s: ArgSpec, request: map<string, Value>, p: Publication, stars: seq<Star>,
                          dist: (Point, Point) -> real, x: Option<real>)
    requires s.kind.FilterKind? && s.kind.spec.op == Ge && s.kind.spec.transform.Identity? && !s.storeMissing
    requires Column(p, s.kind.spec.attribute, stars) == [NumColumn(x)]
    ensures Admits(FixedStepFor(s, request), p, stars, dist) <==> LowerBound(request, s.name, x)
  {
    AdmitsPlainFilter(s, request, p, stars, dist);
    GeSingle(NumColumn(x), if s.name in request then Some(request[s.name]) else None);
  }

  /** The step of an upper-bound argument. */
  lemma UpperBoundMeaning(s: ArgSpec, request: map<string, Value>, p: Publication, stars: seq<Star>,
                          dist: (Point, Point) -> real, x: Option<real>)
    requires s.kind.FilterKind? && s.kind.spec.op == Le && s.kind.spec.transform.Identity? && !s.storeMissing
    requires Column(p, s.kind.spec.attribute, stars) == [NumColumn(x)]
    ensures Admits(FixedStepFor(s, request), p, stars, dist) <==> UpperBound(request, s.name, x)
  {
    AdmitsPlainFilter(s, request, p, stars, dist);
    LeSingle(NumColumn(x), if s.name in request then Some(request[s.name]) else None);
  }

  /** The meaning of the numeric arguments' steps. */
  lemma NumericStepsMeaning(request: map<string, Value>, p: Publication, stars: seq<Star>, dist: (Point, Point) -> real)
    ensures var specs := PublicationArguments();
      && (Admits(FixedStepFor(specs[0], request), p, stars, dist) <==> LowerBound(request, "bathrooms", IntReal(p.bathrooms)))
      && (Admits(FixedStepFor(specs[1], request), p, stars, dist) <==> LowerBound(request, "rooms", IntReal(p.rooms)))
      && (Admits(FixedStepFor(specs[2], request), p, stars, dist) <==> LowerBound(request, "beds", IntReal(p.beds)))
      && (Admits(FixedStepFor(specs[3], request), p, stars, dist) <==> LowerBound(request, "price_per_night_min", p.pricePerNight))
      && (Admits(FixedStepFor(specs[4], request), p, stars, dist) <==> UpperBound(request, "price_per_night_max", p.pricePerNight))
  {
    var specs := PublicationArguments();
    LowerBoundMeaning(specs[0], request, p, stars, dist, IntReal(p.bathrooms));
    LowerBoundMeaning(specs[1], request, p, stars, dist, IntReal(p.rooms));
    LowerBoundMeaning(specs[2], request, p, stars, dist, IntReal(p.beds));
    LowerBoundMeaning(specs[3], request, p, stars, dist, p.pricePerNight);
    UpperBoundMeaning(specs[4], request, p, stars, dist, p.pricePerNight);
  }

  /** The meaning of the equality arguments' steps, including the star relation. */
  lemma EqualityStepsMeaning(request: map<string, Value>, p: Publication, stars: seq<Star>, dist: (Point, Point) -> real)
    ensures var specs := PublicationArguments();
      && (Admits(FixedStepFor(specs[5], request), p, stars, dist) <==>
            ("user_id" in request ==> request["user_id"] == Num(p.userId as real)))
      && (Admits(FixedStepFor(specs[6], request), p, stars, dist) <==>
            StatusArgument(request) == Text(StatusValue(p.blockchainStatus)))
      && (Admits(FixedStepFor(specs[7], request), p, stars, dist) <==>
            ("starring_user_id" in request ==>
               exists k :: 0 <= k < |stars| && stars[k].publicationId == p.id &&
                 request["starring_user_id"] == Num(stars[k].userId as real)))
      && (Admits(FixedStepFor(specs[8], request), p, stars, dist) <==>
            ("blockchain_transaction_hash" in request ==>
               p.blockchainTransactionHash.Some? &&
               request["blockchain_transaction_hash"] == Text(p.blockchainTransactionHash.value)))
  {
    var specs := PublicationArguments();
    AdmitsPlainFilter(specs[5], request, p, stars, dist);
    AdmitsDefaultedFilter(specs[6], request, p, stars, dist);
    AdmitsPlainFilter(specs[7], request, p, stars, dist);
    AdmitsPlainFilter(specs[8], request, p, stars, dist);
  }

  /** The meaning of the float arguments' steps (none) and of `filter_blocked`'s. */
  lemma OtherStepsMeaning(request: map<string, Value>, p: Publication, stars: seq<Star>, dist: (Point, Point) -> real)
    ensures var specs := PublicationArguments();
      && Admits(FixedStepFor(specs[9], request), p, stars, dist)
      && Admits(FixedStepFor(specs[10], request), p, stars, dist)
      && Admits(FixedStepFor(specs[11], request), p, stars, dist)
      && (Admits(FixedStepFor(specs[12], request), p, stars, dist) <==>
            (BlockedArgument(request) == Text("true") ==> p.blocked == Some(false)))
  {
    var specs := PublicationArguments();
    AdmitsDefaultedFilter(specs[12], request, p, stars, dist);
  }

  /** The corrected handler's steps admit a row exactly when it answers every filter
      argument. */
  lemma FixedStepsMeaning(request: map<string, Value>, p: Publication, stars: seq<Star>, dist: (Point, Point) -> real)
    ensures (forall k :: 0 <= k < 13 ==> Admits(FixedSteps(PublicationArguments(), request)[k], p, stars, dist))
      <==> FieldsMatch(request, p, stars)
  {
    FixedStepsAt(request);
    NumericStepsMeaning(request, p, stars, dist);
    EqualityStepsMeaning(request, p, stars, dist);
    OtherStepsMeaning(request, p, stars, dist);
  }

  // ---------------------------------------------------------------------------
  // The listing outcome
  // ---------------------------------------------------------------------------

  /** Whether the request carries any of the distance arguments. */
  predicate HasDistanceArgument(request: map<string, Value>)
  {
    "latitude" in request || "longitude" in request || "max_distance" in request
  }


  lemma HoldsAllAppend(cs: seq<Constraint>, c: Constraint, p: Publication, stars: seq<Star>, dist: (Point, Point) -> real)
    ensures HoldsAll(cs + [c], p, stars, dist) <==> HoldsAll(cs, p, stars, dist) && Holds(c, p, stars, dist)
  {
    assert forall d :: d in cs + [c] <==> d in cs || d == c;
  }

  /** The triple check: a request fails with DistanceFilterMissingParameters exactly
      when it parses and holds some but not all of the three distance arguments. */
  lemma DistanceTripleChecked(request: map<string, Value>, base: seq<Publication>, stars: seq<Star>,
                              dist: (Point, Point) -> real)
    ensures Expected(request, base, stars, dist) == Failure(DistanceFilterMissingParameters) <==>
      ParseOk(PublicationArguments(), request) && GeoPartial(request)
    ensures ExpectedFixed(request, base, stars, dist) == Failure(DistanceFilterMissingParameters) <==>
      ParseOk(PublicationArguments(), request) && GeoPartial(request)
  {
  }

  /** The corrected listing: a request that parses and passes the triple check
      returns, in table order, exactly the publications of the table that answer every
      filter argument and lie within the requested distance. */
  lemma {:induction false} ListingFixedMembership(request: map<string, Value>, base: seq<Publication>, stars: seq<Star>,
                                                  dist: (Point, Point) -> real)
    requires ParseOk(PublicationArguments(), request) && !GeoPartial(request)
    ensures ExpectedFixed(request, base, stars, dist).Success?
    ensures ExpectedFixed(request, base, stars, dist).Success? &&
      forall p :: p in ExpectedFixed(request, base, stars, dist).value <==>
        p in base && SearchMatches(request, p, stars, dist)
    ensures ExpectedFixed(request, base, stars, dist).Success? &&
      multiset(ExpectedFixed(request, base, stars, dist).value) <= multiset(base)
  {
    var steps := FixedSteps(PublicationArguments(), request);
    FixedStepsAt(request);
    assert forall k :: 0 <= k < |steps| ==> !steps[k].Crash?;
    ComposeWithoutCrash(steps);
    var q := Query(Narrowed(steps));
    var cs := WithDistance(q, request).constraints;
    RunMembership(cs, base, stars, dist);
    forall p
      ensures HoldsAll(cs, p, stars, dist) <==> SearchMatches(request, p, stars, dist)
    {
      NarrowedHolds(steps, p, stars, dist);
      FixedStepsMeaning(request, p, stars, dist);
      if GeoActive(request) {
        HoldsAllAppend(Narrowed(steps), DistanceConstraint(request), p, stars, dist);
      }
    }
  }

  /** A max_distance of zero is falsy: no distance predicate is added. */
  lemma ZeroDistanceAddsNothing(request: map<string, Value>, base: seq<Publication>, stars: seq<Star>,
                                dist: (Point, Point) -> real)
    requires ParseOk(PublicationArguments(), request) && !GeoPartial(request)
    requires "max_distance" in request && request["max_distance"] == Num(0.0)
    ensures ExpectedFixed(request, base, stars, dist).Success? &&
      forall p :: p in ExpectedFixed(request, base, stars, dist).value <==>
        p in base && FieldsMatch(request, p, stars)
  {
    ListingFixedMembership(request, base, stars, dist);
  }

  /** Without distance arguments the handler as written and the corrected one agree. */
  lemma FixAgreesWithoutDistance(request: map<string, Value>, base: seq<Publication>, stars: seq<Star>,
                                 dist: (Point, Point) -> real)
    requires !HasDistanceArgument(request)
    ensures Expected(request, base, stars, dist) == ExpectedFixed(request, base, stars, dist)
  {
    var specs := PublicationArguments();
    assert Steps(specs, request) == FixedSteps(specs, request) by {
      assert specs[9].name == "latitude" && specs[10].name == "longitude" && specs[11].name == "max_distance";
      forall k | 0 <= k < |specs|
        ensures Steps(specs, request)[k] == FixedSteps(specs, request)[k]
      {
      }
    }
  }

  /** As written, a request with the distance arguments that parses and passes the
      triple check fails: the raw float reaches `apply`. */
  lemma {:induction false} DistanceSearchFails(request: map<string, Value>, base: seq<Publication>, stars: seq<Star>,
                                               dist: (Point, Point) -> real)
    requires ParseOk(PublicationArguments(), request) && !GeoPartial(request)
    requires HasDistanceArgument(request)
    ensures Expected(request, base, stars, dist) == Failure(AttributeError)
    ensures StatusOf(Expected(request, base, stars, dist).error) == 500
  {
    var specs := PublicationArguments();
    var steps := Steps(specs, request);
    assert specs[11].name == "max_distance" && specs[11].kind.FloatKind?;
    assert steps[11] == Crash;
    ComposeCrash(steps, 11);
  }

  /** A concrete request: five kilometres around a point. */
  lemma DistanceSearchExample(base: seq<Publication>, stars: seq<Star>, dist: (Point, Point) -> real)
    ensures Expected(map["latitude" := Num(-34.6), "longitude" := Num(-58.4), "max_distance" := Num(5.0)],
                     base, stars, dist) == Failure(AttributeError)
  {
    var request := map["latitude" := Num(-34.6), "longitude" := Num(-58.4), "max_distance" := Num(5.0)];
    var specs := PublicationArguments();
    assert specs[9].name == "latitude" && specs[10].name == "longitude" && specs[11].name == "max_distance";
    assert ParseOk(specs, request);
    DistanceSearchFails(request, base, stars, dist);
  }

  /** The listing as written succeeds exactly on requests that parse and carry no
      distance argument, and then returns, in table order, the publications of the
      table that answer every filter argument. */
  lemma ListingMembership(request: map<string, Value>, base: seq<Publication>, stars: seq<Star>,
                          dist: (Point, Point) -> real)
    ensures Expected(request, base, stars, dist).Success? <==>
      ParseOk(PublicationArguments(), request) && !HasDistanceArgument(request)
    ensures Expected(request, base, stars, dist).Success? ==>
      forall p :: p in Expected(request, base, stars, dist).value <==> p in base && FieldsMatch(request, p, stars)
  {
    if ParseOk(PublicationArguments(), request) && !GeoPartial(request) {
      if HasDistanceArgument(request) {
        DistanceSearchFails(request, base, stars, dist);
      } else {
        FixAgreesWithoutDistance(request, base, stars, dist);
        ListingFixedMembership(request, base, stars, dist);
      }
    }
  }

  /** Omitting an argument that has a default is the same as giving the default. */
  lemma OmittedDefaultIsExplicit(request: map<string, Value>, k: nat, base: seq<Publication>, stars: seq<Star>,
                                 dist: (Point, Point) -> real)
    requires k < |PublicationArguments()|
    requires PublicationArguments()[k].default.Some?
    requires PublicationArguments()[k].name !in request
    ensures var s := PublicationArguments()[k];
      Expected(request[s.name := s.default.value], base, stars, dist) == Expected(request, base, stars, dist)
    ensures var s := PublicationArguments()[k];
      ExpectedFixed(request[s.name := s.default.value], base, stars, dist) == ExpectedFixed(request, base, stars, dist)
  {
    var specs := PublicationArguments();
    var s := specs[k];
    var given := request[s.name := s.default.value];
    ArgumentNamesDistinct();
    assert k == 6 || k == 12;
    assert s.kind.FilterKind?;
    assert ParseOk(specs, given) == ParseOk(specs, request);
    assert Steps(specs, given) == Steps(specs, request) by {
      forall j | 0 <= j < |specs|
        ensures Steps(specs, given)[j] == Steps(specs, request)[j]
      {
        if j != k {
          assert specs[j].name != s.name;
        }
      }
    }
    assert FixedSteps(specs, given) == FixedSteps(specs, request) by {
      forall j | 0 <= j < |specs|
        ensures FixedSteps(specs, given)[j] == FixedSteps(specs, request)[j]
      {
        if j != k {
          assert specs[j].name != s.name;
        }
      }
    }
  }

  /** Omitting `blockchain_status` lists the confirmed publications only. */
  lemma OmittedStatusIsConfirmed(request: map<string, Value>, base: seq<Publication>, stars: seq<Star>,
                                 dist: (Point, Point) -> real)
    requires "blockchain_status" !in request
    ensures Expected(request["blockchain_status" := Text("CONFIRMED")], base, stars, dist) ==
      Expected(request, base, stars, dist)
    ensures ExpectedFixed(request["blockchain_status" := Text("CONFIRMED")], base, stars, dist) ==
      ExpectedFixed(request, base, stars, dist)
  {
    OmittedDefaultIsExplicit(request, 6, base, stars, dist);
  }

  /** Omitting `filter_blocked` is asking for "true": blocked publications, and those
      whose blocked column is NULL, are not listed. */
  lemma OmittedBlockedFilterExcludesBlocked(request: map<string, Value>, base: seq<Publication>, stars: seq<Star>,
                                            dist: (Point, Point) -> real)
    requires "filter_blocked" !in request
    ensures Expected(request["filter_blocked" := Text("true")], base, stars, dist) ==
      Expected(request, base, stars, dist)
    ensures Expected(request, base, stars, dist).Success? ==>
      forall p :: p in Expected(request, base, stars, dist).value ==> p in base && p.blocked == Some(false)
    ensures ExpectedFixed(request["filter_blocked" := Text("true")], base, stars, dist) ==
      ExpectedFixed(request, base, stars, dist)
    ensures ExpectedFixed(request, base, stars, dist).Success? ==>
      forall p :: p in ExpectedFixed(request, base, stars, dist).value ==> p in base && p.blocked == Some(false)
  {
    OmittedDefaultIsExplicit(request, 12, base, stars, dist);
    ListingMembership(request, base, stars, dist);
    if ExpectedFixed(request, base, stars, dist).Success? {
      ListingFixedMembership(request, base, stars, dist);
    }
  }

  /** Request keys that name no registered argument change nothing. */
  lemma UnknownArgumentIgnored(request: map<string, Value>, key: string, v: Value, base: seq<Publication>,
                               stars: seq<Star>, dist: (Point, Point) -> real)
    requires forall k :: 0 <= k < |PublicationArguments()| ==> PublicationArguments()[k].name != key
    ensures Expected(request[key := v], base, stars, dist) == Expected(request, base, stars, dist)
    ensures ExpectedFixed(request[key := v], base, stars, dist) == ExpectedFixed(request, base, stars, dist)
  {
    var specs := PublicationArguments();
    var given := request[key := v];
    assert specs[9].name == "latitude" && specs[10].name == "longitude" && specs[11].name == "max_distance";
    assert ParseOk(specs, given) == ParseOk(specs, request);
    assert Steps(specs, given) == Steps(specs, request) by {
      forall j | 0 <= j < |specs|
        ensures Steps(specs, given)[j] == Steps(specs, request)[j]
      {
        assert specs[j].name != key;
      }
    }
    assert FixedSteps(specs, given) == FixedSteps(specs, request) by {
      forall j | 0 <= j < |specs|
        ensures FixedSteps(specs, given)[j] == FixedSteps(specs, request)[j]
      {
        assert specs[j].name != key;
      }
    }
  }
}
