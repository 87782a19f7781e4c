/**
 How the four bound keywords of a number are read.  An exclusive bound replaces the
 inclusive one, while by sections 6.2.2 to 6.2.5 of the JSON Schema validation draft 7
 all that are present hold together.
 */
module NumericBounds {
  import opened Wrappers
  import opened SchemaGraph
  import opened ValidationReport

  datatype Bounds = Bounds(
    maximum: Option<int>,
    minimum: Option<int>,
    exclusiveMaximum: Option<int>,
    exclusiveMinimum: Option<int>)

  /** The constructor reads the keywords in this order; the later one overwrites. */
  method Construct(b: Bounds) returns (k: Numeric)
    ensures k == Constructed(b)
  {
    k := Numeric(None, None, false, false);
    if b.maximum.Some? {
      k := k.(maximum := b.maximum);
    }
    if b.minimum.Some? {
      k := k.(minimum := b.minimum);
    }
    if b.exclusiveMaximum.Some? {
      k := k.(exclusiveMaximum := true, maximum := b.exclusiveMaximum);
    }
    if b.exclusiveMinimum.Some? {
      k := k.(exclusiveMinimum := true, minimum := b.exclusiveMinimum);
    }
  }

  function Constructed(b: Bounds): Numeric {
    Numeric(
      if b.exclusiveMaximum.Some? then b.exclusiveMaximum else b.maximum,
      if b.exclusiveMinimum.Some? then b.exclusiveMinimum else b.minimum,
      b.exclusiveMaximum.Some?,
      b.exclusiveMinimum.Some?)
  }

  /** The draft: every keyword on its own. */
  predicate UpperHolds(b: Bounds, n: int) {
    (b.maximum.Some? ==> n <= b.maximum.value) && (b.exclusiveMaximum.Some? ==> n < b.exclusiveMaximum.value)
  }

  predicate LowerHolds(b: Bounds, n: int) {
    (b.minimum.Some? ==> n >= b.minimum.value) && (b.exclusiveMinimum.Some? ==> n > b.exclusiveMinimum.value)
  }

  /** The upper check is the draft's for every integer exactly if the exclusive bound is not the looser one. */
  lemma UpperAsDrafted(b: Bounds)
    ensures (forall n :: !NumericChecks(Constructed(b), n)[0].fails <==> UpperHolds(b, n)) <==>
      (b.maximum.Some? && b.exclusiveMaximum.Some? ==> b.exclusiveMaximum.value <= b.maximum.value + 1)
  {
    if b.maximum.Some? && b.exclusiveMaximum.Some? && b.exclusiveMaximum.value > b.maximum.value + 1 {
      var n := b.maximum.value + 1;
      assert !NumericChecks(Constructed(b), n)[0].fails && !UpperHolds(b, n);
    }
  }

  lemma LowerAsDrafted(b: Bounds)
    ensures (forall n :: !NumericChecks(Constructed(b), n)[1].fails <==> LowerHolds(b, n)) <==>
      (b.minimum.Some? && b.exclusiveMinimum.Some? ==> b.exclusiveMinimum.value >= b.minimum.value - 1)
  {
    if b.minimum.Some? && b.exclusiveMinimum.Some? && b.exclusiveMinimum.value < b.minimum.value - 1 {
      var n := b.minimum.value - 1;
      assert !NumericChecks(Constructed(b), n)[1].fails && !LowerHolds(b, n);
    }
  }
}
