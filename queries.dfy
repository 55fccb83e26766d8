/**
  The storage side of a listing search: a query is a conjunction of constraints over
  the publication table, and running it keeps, in table order, the rows that satisfy
  every constraint. Comparisons follow SQL: a NULL column matches no comparison, and
  `column == None` means IS NULL. A constraint on `stars.user_id` is read as holding
  when any star row of the publication matches.
  The geodesic distance is computed by the database's spatial extension; here it is
  the parameter `dist`.
 */
module Queries {
  import opened Wrappers
  import opened Models

  /** A value a filter is bound to: a number, a string or a boolean. */
  datatype Value = Num(n: real) | Text(t: string) | Flag(b: bool)

  /** The comparison a filter applies: `ops.ge`, `ops.le`, `ops.eq` or `conditional_filter`. */
  datatype Op = Ge | Le | Eq | Conditional

  /** The conversion a filter applies to its value before comparing: none, or the
      lookup table {"true": True, "false": False}.get. */
  datatype Transform = Identity | BoolLiteral

  /** The publication attributes a filter can target. */
  datatype Attribute =
    | Rooms | Beds | Bathrooms | PricePerNight | UserId
    | Status | TransactionHash | Blocked | StarsUserId

  /** The attribute's name on the model (a dotted name reaches through a relation). */
  function AttributeName(a: Attribute): (r: string)
  {
    match a
    case Rooms => "rooms"
    case Beds => "beds"
    case Bathrooms => "bathrooms"
    case PricePerNight => "price_per_night"
    case UserId => "user_id"
    case Status => "blockchain_status"
    case TransactionHash => "blockchain_transaction_hash"
    case Blocked => "blocked"
    case StarsUserId => "stars.user_id"
  }

  /** The value a filter compares with, after its transform. The boolean table maps
      exactly "true" and "false"; any other value (and an unbound one) maps to None. */
  function Transformed(t: Transform, v: Option<Value>): (r: Option<Value>)
    ensures t.Identity? ==> r == v
    ensures t.BoolLiteral? ==> (r == Some(Flag(true)) <==> v == Some(Text("true")))
    ensures t.BoolLiteral? ==> (r == Some(Flag(false)) <==> v == Some(Text("false")))
    ensures t.BoolLiteral? ==> (r.None? <==> v != Some(Text("true")) && v != Some(Text("false")))
  {
    match t
    case Identity => v
    case BoolLiteral =>
      if v == Some(Text("true")) then Some(Flag(true))
      else if v == Some(Text("false")) then Some(Flag(false))
      else None
  }

  /** Python's `v == True`, which also holds of the number 1. */
  predicate IsTrue(v: Option<Value>)
  {
    v == Some(Flag(true)) || v == Some(Num(1.0))
  }

  /** One conjunct of a query. */
  datatype Constraint =
    | Compare(op: Op, attribute: Attribute, value: Option<Value>)
    | Within(center: Point, meters: real)

  /** A query over the publication table: the constraints added so far. */
  datatype Query = Query(constraints: seq<Constraint>)
  {
    /** `query.filter(c)`: the same query with one more conjunct. */
    function Filter(c: Constraint): (r: Query)
    {
      Query(constraints + [c])
    }
  }

  /** The user ids of the star rows of publication `id`, in table order. */
  function StarUsers(stars: seq<Star>, id: int): (r: seq<Option<Value>>)
    ensures forall x :: x in r <==>
      exists k :: 0 <= k < |stars| && stars[k].publicationId == id && x == Some(Num(stars[k].userId as real))
  {
    if |stars| == 0 then []
    else
      var rest := StarUsers(stars[1..], id);
      assert forall k :: 0 < k < |stars| ==> stars[k] == stars[1..][k - 1];
      (if stars[0].publicationId == id then [Some(Num(stars[0].userId as real))] else []) + rest
  }

  function IntColumn(v: Option<int>): (r: Option<Value>)
  {
    if v.Some? then Some(Num(v.value as real)) else None
  }

  /** The values a constraint on attribute `a` is tested against: one value for a
      column of the row, one per related row for `stars.user_id`. */
  function Column(p: Publication, a: Attribute, stars: seq<Star>): (r: seq<Option<Value>>)
  {
    match a
    case Rooms => [IntColumn(p.rooms)]
    case Beds => [IntColumn(p.beds)]
    case Bathrooms => [IntColumn(p.bathrooms)]
    case PricePerNight => [if p.pricePerNight.Some? then Some(Num(p.pricePerNight.value)) else None]
    case UserId => [Some(Num(p.userId as real))]
    case Status => [Some(Text(StatusValue(p.blockchainStatus)))]
    case TransactionHash =>
      [if p.blockchainTransactionHash.Some? then Some(Text(p.blockchainTransactionHash.value)) else None]
    case Blocked => [if p.blocked.Some? then Some(Flag(p.blocked.value)) else None]
    case StarsUserId => StarUsers(stars, p.id)
  }

  predicate AtLeast(x: Option<Value>, v: Option<Value>)
  {
    x.Some? && v.Some? && x.value.Num? && v.value.Num? && x.value.n >= v.value.n
  }

  predicate AtMost(x: Option<Value>, v: Option<Value>)
  {
    x.Some? && v.Some? && x.value.Num? && v.value.Num? && x.value.n <= v.value.n
  }

  /**
    Whether a comparison holds of a column: for ≥ and ≤ some non-NULL number of the
    column compares; for equality some value of the column equals the bound value
    (an unbound value selects NULLs); `conditional_filter` with a true value asks for
    `blocked == False` and otherwise is the tautology `1 == 1`.
   */
  predicate Matches(op: Op, col: seq<Option<Value>>, v: Option<Value>)
  {
    match op
    case Ge => exists i :: 0 <= i < |col| && AtLeast(col[i], v)
    case Le => exists i :: 0 <= i < |col| && AtMost(col[i], v)
    case Eq => v in col
    case Conditional => IsTrue(v) ==> Some(Flag(false)) in col
  }

  /** Whether row `p` satisfies constraint `c`. `Within` is inclusive, as ST_DWithin is. */
  predicate Holds(c: Constraint, p: Publication, stars: seq<Star>, dist: (Point, Point) -> real)
  {
    match c
    case Compare(op, a, v) => Matches(op, Column(p, a, stars), v)
    case Within(center, meters) => dist(p.loc, center) <= meters
  }

  predicate HoldsAll(cs: seq<Constraint>, p: Publication, stars: seq<Star>, dist: (Point, Point) -> real)
  {
    forall c :: c in cs ==> Holds(c, p, stars, dist)
  }

  /** Executing a query: the rows satisfying every constraint, in table order. */
  function Run(cs: seq<Constraint>, rows: seq<Publication>, stars: seq<Star>, dist: (Point, Point) -> real): (r: seq<Publication>)
  {
    if |rows| == 0 then []
    else (if HoldsAll(cs, rows[0], stars, dist) then [rows[0]] else []) + Run(cs, rows[1..], stars, dist)
  }

  /** A row is returned exactly when it is in the table and satisfies every constraint;
      the result never has more rows than the table. */
  lemma {:induction false} RunMembership(cs: seq<Constraint>, rows: seq<Publication>, stars: seq<Star>, dist: (Point, Point) -> real)
    ensures forall p :: p in Run(cs, rows, stars, dist) <==> p in rows && HoldsAll(cs, p, stars, dist)
    ensures multiset(Run(cs, rows, stars, dist)) <= multiset(rows)
  {
    if |rows| > 0 {
      RunMembership(cs, rows[1..], stars, dist);
      assert rows == [rows[0]] + rows[1..];
    }
  }

  /** A query without constraints returns the whole table, in order. */
  lemma {:induction false} RunWithoutConstraints(rows: seq<Publication>, stars: seq<Star>, dist: (Point, Point) -> real)
    ensures Run([], rows, stars, dist) == rows
  {
    if |rows| > 0 {
      RunWithoutConstraints(rows[1..], stars, dist);
      assert rows == [rows[0]] + rows[1..];
    }
  }

  /** Conjunction is order-independent: queries with the same constraints, in any
      order and with any repetition, return the same rows. */
  lemma {:induction false} RunSameConstraints(cs1: seq<Constraint>, cs2: seq<Constraint>, rows: seq<Publication>, stars: seq<Star>, dist: (Point, Point) -> real)
    requires forall c :: c in cs1 <==> c in cs2
    ensures Run(cs1, rows, stars, dist) == Run(cs2, rows, stars, dist)
  {
    if |rows| > 0 {
      RunSameConstraints(cs1, cs2, rows[1..], stars, dist);
      assert HoldsAll(cs1, rows[0], stars, dist) == HoldsAll(cs2, rows[0], stars, dist);
    }
  }

  /** Adding a constraint narrows: the rows of the longer query are the rows of the
      shorter one that satisfy the new constraint. */
  lemma {:induction false} RunFilter(cs: seq<Constraint>, c: Constraint, rows: seq<Publication>, stars: seq<Star>, dist: (Point, Point) -> real)
    ensures Run(cs + [c], rows, stars, dist) == Run([c], Run(cs, rows, stars, dist), stars, dist)
  {
    if |rows| > 0 {
      RunFilter(cs, c, rows[1..], stars, dist);
      var p := rows[0];
      assert HoldsAll(cs + [c], p, stars, dist) <==> HoldsAll(cs, p, stars, dist) && Holds(c, p, stars, dist) by {
        assert forall d :: d in cs + [c] <==> d in cs || d == c;
      }
      var tail := Run(cs, rows[1..], stars, dist);
      if HoldsAll(cs, p, stars, dist) {
        assert Run(cs, rows, stars, dist) == [p] + tail;
        assert ([p] + tail)[1..] == tail;
      } else {
        assert Run(cs, rows, stars, dist) == tail;
      }
    }
  }
}
