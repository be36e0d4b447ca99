/**
 * The measurement value class of dlsoo/util.py: one objective's summary, with
 * arithmetic and comparisons that look at the mean only. The source's dev
 * and err hold a standard deviation and a standard error; this model works
 * without square roots, so dev holds the variance and err the variance
 * divided by the number of samples kept (the squares of the source's values).
 */
module Measurements {
  import opened Wrappers

  datatype ArithError = ZeroDivisionError

  class Measurement {
    var name: Option<string>
    var mean: real
    var dev: Option<real>
    var counts: Option<nat>
    var err: Option<real>

    /** measurement(name, mean, dev, counts, err); the fields left out stay None. */
    constructor (name: Option<string>, mean: real, dev: Option<real>, counts: Option<nat>, err: Option<real>)
      ensures this.name == name && this.mean == mean && this.dev == dev
      ensures this.counts == counts && this.err == err
    {
      this.name := name;
      this.mean := mean;
      this.dev := dev;
      this.counts := counts;
      this.err := err;
    }

    /** __neg__: negates the receiver's own mean and returns the receiver itself. */
    method Neg() returns (r: Measurement)
      modifies this`mean
      ensures r == this
      ensures mean == -old(mean)
    {
      r := this;
      r.mean := -r.mean;
    }

    /** __pos__: the receiver itself, unchanged. */
    method Pos() returns (r: Measurement)
      ensures r == this
    {
      r := this;
    }

    /** __add__ (and __iadd__, which calls it): a new measurement holding only the sum of the means. */
    method Add(other: Measurement) returns (r: Measurement)
      ensures fresh(r)
      ensures r.mean == mean + other.mean
      ensures r.name.None? && r.dev.None? && r.counts.None? && r.err.None?
    {
      r := new Measurement(None, mean + other.mean, None, None, None);
    }

    /** __sub__ (and __isub__): a new measurement holding only the difference of the means. */
    method Sub(other: Measurement) returns (r: Measurement)
      ensures fresh(r)
      ensures r.mean + other.mean == mean
      ensures r.name.None? && r.dev.None? && r.counts.None? && r.err.None?
    {
      r := new Measurement(None, mean - other.mean, None, None, None);
    }

    /** __mul__ (and __imul__): a new measurement holding only the product of the means. */
    method Mul(other: Measurement) returns (r: Measurement)
      ensures fresh(r)
      ensures r.mean == mean * other.mean
      ensures r.name.None? && r.dev.None? && r.counts.None? && r.err.None?
    {
      r := new Measurement(None, mean * other.mean, None, None, None);
    }

    /**
     * __div__ (and __idiv__): a new measurement holding only the quotient of
     * the means; a zero divisor raises ZeroDivisionError.
     */
    method Div(other: Measurement) returns (r: Result<Measurement, ArithError>)
      ensures other.mean == 0.0 <==> r.Err?
      ensures r.Ok? ==> fresh(r.value) && r.value.mean * other.mean == mean
      ensures r.Ok? ==> r.value.name.None? && r.value.dev.None? && r.value.counts.None? && r.value.err.None?
    {
      if other.mean == 0.0 {
        return Err(ZeroDivisionError);
      }
      var q := new Measurement(None, mean / other.mean, None, None, None);
      return Ok(q);
    }

    /** __lt__ */
    predicate Less(other: Measurement)
      reads this, other
    {
      mean < other.mean
    }

    /** __le__ */
    predicate AtMost(other: Measurement)
      reads this, other
    {
      mean <= other.mean
    }

    /** __eq__ */
    predicate Same(other: Measurement)
      reads this, other
    {
      mean == other.mean
    }

    /** __ne__ */
    predicate Differs(other: Measurement)
      reads this, other
    {
      mean != other.mean
    }

    /** __ge__ */
    predicate AtLeast(other: Measurement)
      reads this, other
    {
      mean >= other.mean
    }

    /** __gt__ */
    predicate Greater(other: Measurement)
      reads this, other
    {
      mean > other.mean
    }
  }
}
