/**
  The callable filter object of the service's utilities. A filter is registered as the
  `type` of a request argument: calling it binds the argument's value and returns the
  same object; applying it adds one comparison of its attribute with that value to a
  query.
 */
module Utils {
  import opened Wrappers
  import opened Queries

  /** What a filter compares, without its bound value. */
  datatype FilterSpec = FilterSpec(op: Op, attribute: Attribute, transform: Transform)

  /** The constraint a filter with specification `s` adds when bound to `v`. */
  function ConstraintOf(s: FilterSpec, v: Option<Value>): (r: Constraint)
  {
    Compare(s.op, s.attribute, Transformed(s.transform, v))
  }

  /** How Python prints each operator. The address in the repr of the module-level
      function `conditional_filter` is not modelled. */
  function OpRepr(op: Op): (r: string)
  {
    match op
    case Ge => "<built-in function ge>"
    case Le => "<built-in function le>"
    case Eq => "<built-in function eq>"
    case Conditional => "<function conditional_filter>"
  }

  class FilterParam {
    const name: string
    const op: Op
    /** The attribute the filter compares; at the call sites it defaults to `name`. */
    const attribute: Attribute
    /** Applied to the bound value before comparing (only `filter_blocked` has one). */
    const transform: Transform
    var val: Option<Value>

    /** A new filter is unbound. */
    constructor (name: string, op: Op, attribute: Attribute, transform: Transform)
      ensures this.name == name && this.op == op
      ensures this.attribute == attribute && this.transform == transform
      ensures val == None
    {
      this.name := name;
      this.op := op;
      this.attribute := attribute;
      this.transform := transform;
      val := None;
    }

    function Spec(): (r: FilterSpec)
    {
      FilterSpec(op, attribute, transform)
    }

    /** `f(v)`: binds `v` and returns the filter itself. */
    method Call(v: Value) returns (self: FilterParam)
      modifies this
      ensures self == this
      ensures val == Some(v)
    {
      val := Some(v);
      self := this;
    }

    /** `f.apply(query)`: the query with exactly one more constraint, comparing the
        attribute with the (transformed) bound value; the constraints already there
        are kept. Being a function, it changes none of the filter's fields. */
    function Apply(q: Query): (r: Query)
      reads this
      ensures |r.constraints| == |q.constraints| + 1
      ensures r.constraints[..|q.constraints|] == q.constraints
      ensures r.constraints[|q.constraints|] == ConstraintOf(Spec(), val)
    {
      q.Filter(ConstraintOf(Spec(), val))
    }

    /** `repr(f)`: "filter <name> by <op>". The name and the operator can be read back. */
    function Repr(): (r: string)
      ensures |r| == 11 + |name| + |OpRepr(op)|
      ensures r[..7] == "filter " && r[7..7 + |name|] == name
      ensures r[7 + |name|..11 + |name|] == " by " && r[11 + |name|..] == OpRepr(op)
    {
      "filter " + name + " by " + OpRepr(op)
    }

    /** `str(f)` is `repr(f)`. */
    function Str(): (r: string)
      ensures r == Repr()
    {
      Repr()
    }
  }

  /** Applying a bound filter narrows the query: its rows are the rows of the old query
      that satisfy the filter's comparison. */
  lemma ApplyNarrows(f: FilterParam, q: Query, rows: seq<Models.Publication>, stars: seq<Models.Star>, dist: (Models.Point, Models.Point) -> real)
    ensures forall p :: p in Run(f.Apply(q).constraints, rows, stars, dist) <==>
      p in Run(q.constraints, rows, stars, dist) && Holds(ConstraintOf(f.Spec(), f.val), p, stars, dist)
  {
    var c := ConstraintOf(f.Spec(), f.val);
    assert f.Apply(q).constraints == q.constraints + [c];
    RunFilter(q.constraints, c, rows, stars, dist);
    RunMembership([c], Run(q.constraints, rows, stars, dist), stars, dist);
    assert forall p :: HoldsAll([c], p, stars, dist) <==> Holds(c, p, stars, dist) by {
      assert forall d :: d in [c] <==> d == c;
    }
  }
}
